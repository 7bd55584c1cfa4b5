/** The ledger read against the bookings: what every hour movement keeps. */
module Books {
  import opened Model
  import opened Sums
  import opened Ledgers
  import opened Settlement
  import opened Credit

  type BookingTable = map<BookingId, Booking>

  /** The hours a booking must have debited right now. */
  function Held(bk: Booking): int {
    if HoldsHours(bk.status) then bk.share else 0
  }

  /** A row draws on the customer's own hours. */
  ghost predicate OwnHours(l: Ledger, bookings: BookingTable, k: DebitKey)
    requires k.purchase in l.purchases && k.booking in bookings
  {
    && l.purchases[k.purchase].user == bookings[k.booking].user
    && l.purchases[k.purchase].org == bookings[k.booking].org
  }

  ghost predicate ShareFits(bk: Booking) {
    0 <= bk.share <= bk.duration
  }

  ghost predicate BooksMatch(l: Ledger, bookings: BookingTable) {
    && Balanced(l)
    && (forall k | k in l.debits :: k.booking in bookings && OwnHours(l, bookings, k))
    && (forall b | b in bookings :: HoursFor(l.debits, b) == Held(bookings[b]))
    && (forall b | b in bookings :: ShareFits(bookings[b]))
  }

  /** Cancelled, and no payment can bring it back by itself. */
  predicate Resting(bk: Booking) {
    bk.status == Cancelled && bk.holdExpires.None?
  }

  /** Every credit stands for a booking of its customer's, one each, and is worth
      something; strictly, it is out of circulation unless that booking rests
      cancelled. */
  ghost predicate CreditStands(p: Purchase, bookings: BookingTable, strict: bool := true) {
    p.source.Some? ==>
      && p.source.value in bookings
      && var bk := bookings[p.source.value];
      && p.user == bk.user && p.org == bk.org && p.total > 0
      && (p.status == Spendable || WrittenOff(p))
      && (strict ==> WrittenOff(p) || Resting(bk))
  }

  ghost predicate CreditsMatch(l: Ledger, bookings: BookingTable, strict: bool := true) {
    && OneCreditEach(l.purchases)
    && (forall p | p in l.purchases :: CreditStands(l.purchases[p], bookings, strict))
  }

  lemma StrictlyOrNot(l: Ledger, bookings: BookingTable)
    requires CreditsMatch(l, bookings)
    ensures CreditsMatch(l, bookings, false)
  {
    forall p | p in l.purchases ensures CreditStands(l.purchases[p], bookings, false) {
      assert CreditStands(l.purchases[p], bookings);
    }
  }

  /** A purchase that only moved hours still belongs to whom it did, and a
      written-off credit did not move at all. */
  lemma RebaseKeepsIdentity(l: Ledger, debits: DebitTable)
    requires Balanced(l) && Balanced(Rebase(l, debits))
    ensures forall p | p in l.purchases ::
              var q := Rebase(l, debits).purchases[p];
              && q.user == l.purchases[p].user && q.org == l.purchases[p].org
              && q.source == l.purchases[p].source && q.status == l.purchases[p].status
              && q.expires == l.purchases[p].expires && q.total == l.purchases[p].total
              && (WrittenOff(l.purchases[p]) ==> q == l.purchases[p])
  {
    hide Total, HoursOn, HoursFor;
    var l' := Rebase(l, debits);
    forall p | p in l.purchases && WrittenOff(l.purchases[p])
      ensures l'.purchases[p] == l.purchases[p]
    {
      assert BalancedPurchase(l, p) && BalancedPurchase(l', p);
    }
  }

  /** No booking draws on the credit its own cancellation left. */
  lemma RowsAvoidOwnCredit(l: Ledger, bookings: BookingTable)
    requires BooksMatch(l, bookings) && CreditsMatch(l, bookings)
    ensures forall k | k in l.debits :: k.purchase in l.purchases && l.purchases[k.purchase].source != Some(k.booking)
  {
    hide Total, HoursOn, HoursFor;
    RowsBoundHours(l.debits);
    forall k | k in l.debits ensures l.purchases[k.purchase].source != Some(k.booking) {
      assert BalancedPurchase(l, k.purchase) && CreditStands(l.purchases[k.purchase], bookings);
      assert HoursFor(l.debits, k.booking) == Held(bookings[k.booking]);
    }
  }

  /** Changes to a booking that leave its owner and its share alone. */
  ghost predicate SameClaim(bk: Booking, bk': Booking) {
    bk'.user == bk.user && bk'.org == bk.org && bk'.share == bk.share && bk'.duration == bk.duration
  }

  /** The books after a change of rows, given what the new rows say. */
  lemma RebasedBooks(l: Ledger, debits: DebitTable, bookings: BookingTable)
    requires Balanced(l) && Balanced(Rebase(l, debits))
    requires forall k | k in debits ::
               k.booking in bookings && k.purchase in l.purchases && OwnHours(l, bookings, k)
    requires forall b | b in bookings :: HoursFor(debits, b) == Held(bookings[b]) && ShareFits(bookings[b])
    ensures BooksMatch(Rebase(l, debits), bookings)
  {
    hide Total, HoursFor;
    RebaseKeepsIdentity(l, debits);
    hide HoursOn, Balanced, BalancedPurchase;
    var l' := Rebase(l, debits);
    forall k | k in debits ensures OwnHours(l', bookings, k) {
      assert OwnHours(l, bookings, k);
    }
  }

  lemma RebasedCredits(l: Ledger, debits: DebitTable, bookings: BookingTable, strict: bool := true)
    requires Balanced(l) && Balanced(Rebase(l, debits)) && OneCreditEach(l.purchases)
    requires forall p | p in l.purchases :: CreditStands(l.purchases[p], bookings, strict)
    ensures CreditsMatch(Rebase(l, debits), bookings, strict)
  {
    hide Total, HoursFor;
    RebaseKeepsIdentity(l, debits);
    hide HoursOn, Balanced, BalancedPurchase;
    var l' := Rebase(l, debits);
    forall p | p in l'.purchases ensures CreditStands(l'.purchases[p], bookings, strict) {
      assert CreditStands(l.purchases[p], bookings, strict);
    }
  }

  /** `b` may be anything but resting: it was not before, or no credit of its is about. */
  ghost predicate MayHold(l: Ledger, bookings: BookingTable, b: BookingId) {
    (b in bookings && !Resting(bookings[b]))
    || forall p | p in l.purchases && l.purchases[p].source == Some(b) :: WrittenOff(l.purchases[p])
  }

  lemma CreditsCarryOver(l: Ledger, bookings: BookingTable, bookings': BookingTable, strict: bool := true)
    requires forall p | p in l.purchases :: CreditStands(l.purchases[p], bookings, strict)
    requires forall b | b in bookings ::
               && b in bookings'
               && bookings'[b].user == bookings[b].user && bookings'[b].org == bookings[b].org
               && (!strict || Resting(bookings'[b]) || MayHold(l, bookings, b))
    ensures forall p | p in l.purchases :: CreditStands(l.purchases[p], bookings', strict)
  {
  }

  // ---- releasing a set of bookings ---------------------------------------------

  /** Bookings that stop holding hours, all their rows released. */
  lemma ReleasingKeepsBooks(l: Ledger, bookings: BookingTable, released: set<BookingId>,
                            bookings': BookingTable, strict: bool := true)
    requires BooksMatch(l, bookings) && CreditsMatch(l, bookings, strict)
    requires bookings'.Keys == bookings.Keys
    requires forall b | b in bookings ::
               SameClaim(bookings[b], bookings'[b])
               && (!strict || Resting(bookings'[b]) || MayHold(l, bookings, b))
               && Held(bookings'[b]) == if b in released then 0 else Held(bookings[b])
    ensures BooksMatch(Released(l, released), bookings') && CreditsMatch(Released(l, released), bookings', strict)
  {
    hide Total, HoursOn, HoursFor;
    var rows := Without(l.debits, released);
    ReleasedKeepsBalance(l, released);
    WithoutHoldsNothing(l.debits, released);
    hide Balanced;
    forall k | k in rows
      ensures k.booking in bookings' && k.purchase in l.purchases && OwnHours(l, bookings', k)
    {
      assert k in l.debits && OwnHours(l, bookings, k);
    }
    forall b | b in bookings' ensures HoursFor(rows, b) == Held(bookings'[b]) && ShareFits(bookings'[b]) {
      assert ShareFits(bookings[b]) && HoursFor(l.debits, b) == Held(bookings[b]);
    }
    CreditsCarryOver(l, bookings, bookings', strict);
    RebasedBooks(l, rows, bookings');
    RebasedCredits(l, rows, bookings', strict);
  }

  // ---- one booking's rows rewritten ----------------------------------------------

  lemma OneBookingKeepsBooks(l: Ledger, bookings: BookingTable, b: BookingId, bk: Booking, rows: DebitTable,
                             strict: bool := true)
    requires BooksMatch(l, bookings) && CreditsMatch(l, bookings, strict)
    requires OnlyRowsOf(b, l.debits, rows) && Balanced(Rebase(l, rows))
    requires forall k | k in rows && k.booking == b ::
               && k.purchase in l.purchases
               && l.purchases[k.purchase].user == bk.user && l.purchases[k.purchase].org == bk.org
    requires HoursFor(rows, b) == Held(bk) && ShareFits(bk)
    requires b in bookings ==> bookings[b].user == bk.user && bookings[b].org == bk.org
    ensures BooksMatch(Rebase(l, rows), bookings[b := bk])
    ensures (!strict || Resting(bk) || MayHold(l, bookings, b)) ==> CreditsMatch(Rebase(l, rows), bookings[b := bk], strict)
  {
    hide Total, HoursOn, HoursFor;
    var bookings' := bookings[b := bk];
    OneBookingMoves(b, l.debits, rows);
    forall k | k in rows
      ensures k.booking in bookings' && k.purchase in l.purchases && OwnHours(l, bookings', k)
    {
      if k.booking != b {
        assert k in l.debits && OwnHours(l, bookings, k);
      }
    }
    forall c | c in bookings' ensures HoursFor(rows, c) == Held(bookings'[c]) && ShareFits(bookings'[c]) {
      if c != b {
        assert ShareFits(bookings[c]) && HoursFor(l.debits, c) == Held(bookings[c]);
      }
    }
    hide Balanced;
    RebasedBooks(l, rows, bookings');
    if !strict || Resting(bk) || MayHold(l, bookings, b) {
      CreditsCarryOver(l, bookings, bookings', strict);
      RebasedCredits(l, rows, bookings', strict);
    }
  }

  /** Draws for booking `b`, which then holds exactly what was drawn on top of before. */
  lemma DrawingKeepsBooks(l: Ledger, bookings: BookingTable, b: BookingId, bk: Booking, draws: seq<Draw>, now: int,
                          own: Option<BookingId>, strict: bool := true)
    requires BooksMatch(l, bookings) && CreditsMatch(l, bookings, strict)
    requires Affordable(l.purchases, draws)
    requires forall d | d in draws ::
               d.purchase in Candidates(l.purchases, bk.user, bk.org, now) && Drawable(l.purchases[d.purchase], now, own)
    requires b in bookings ==> bookings[b].user == bk.user && bookings[b].org == bk.org
    requires Held(bk) == TotalDrawn(draws) + if b in bookings then Held(bookings[b]) else 0
    requires ShareFits(bk)
    ensures Drawn(l, b, draws) == Rebase(l, WithRows(l.debits, b, draws))
    ensures BooksMatch(Drawn(l, b, draws), bookings[b := bk])
    ensures (!strict || Resting(bk) || MayHold(l, bookings, b)) ==> CreditsMatch(Drawn(l, b, draws), bookings[b := bk], strict)
  {
    hide Total, HoursOn, HoursFor;
    var rows := WithRows(l.debits, b, draws);
    DrawnKeepsBalance(l, b, draws);
    DrawingAddsHours(l.debits, b, draws);
    DrawnRows(l.debits, b, draws);
    if b !in bookings {
      NoRowsOfStrangers(l, bookings, b);
    }
    forall k | k in rows && k.booking == b
      ensures && k.purchase in l.purchases
              && l.purchases[k.purchase].user == bk.user && l.purchases[k.purchase].org == bk.org
    {
      if k in l.debits {
        assert OwnHours(l, bookings, k);
      } else {
        var d :| d in draws && k == DebitKey(b, d.purchase);
        assert d.purchase in Candidates(l.purchases, bk.user, bk.org, now);
      }
    }
    OneBookingKeepsBooks(l, bookings, b, bk, rows, strict);
  }

  lemma NoRowsOfStrangers(l: Ledger, bookings: BookingTable, b: BookingId)
    requires BooksMatch(l, bookings) && b !in bookings
    ensures HoursFor(l.debits, b) == 0
  {
    assert RowsFor(l.debits, b) == map[];
  }

  // ---- a status change of one booking ---------------------------------------------

  /** What a status change does to the ledger; `None` when the hours cannot be
      taken again. */
  ghost function SettledStatus(l: Ledger, b: BookingId, bk: Booking, previous: Status, next: Status, now: int)
    : Option<Ledger>
  {
    if bk.share <= 0 then Some(l)
    else if HoldsHours(previous) && !HoldsHours(next) then Some(Released(l, {b}))
    else if !HoldsHours(previous) && HoldsHours(next) then Redebited(l, b, bk.user, bk.org, bk.share, now)
    else Some(l)
  }

  /** The booking after the change, whatever else about it was rewritten. */
  lemma StatusChangeKeepsBooks(l: Ledger, bookings: BookingTable, b: BookingId, bk: Booking, now: int,
                               strict: bool := true)
    requires BooksMatch(l, bookings) && CreditsMatch(l, bookings, strict)
    requires b in bookings && SameClaim(bookings[b], bk)
    ensures var settled := SettledStatus(l, b, bookings[b], bookings[b].status, bk.status, now);
            settled.Some? ==>
              && BooksMatch(settled.value, bookings[b := bk])
              && ((!strict || Resting(bk) || MayHold(l, bookings, b)) ==> CreditsMatch(settled.value, bookings[b := bk], strict))
  {
    hide Total;
    var was := bookings[b];
    assert ShareFits(was);
    var settled := SettledStatus(l, b, was, was.status, bk.status, now);
    if settled.Some? {
      if was.share > 0 && HoldsHours(was.status) && !HoldsHours(bk.status) {
        ReleasingKeepsBooks(l, bookings, {b}, bookings[b := bk], strict);
      } else if was.share > 0 && !HoldsHours(was.status) && HoldsHours(bk.status) {
        var draws := ShareDraws(l.purchases, was.user, was.org, was.share, now, Some(b));
        ShareDrawsFit(l.purchases, was.user, was.org, was.share, now, Some(b));
        DrawingKeepsBooks(l, bookings, b, bk, draws, now, Some(b), strict);
      } else {
        RewritingKeepsBooks(l, bookings, b, bk, strict);
      }
    }
  }

  /** A booking rewritten without moving hours. */
  lemma RewritingKeepsBooks(l: Ledger, bookings: BookingTable, b: BookingId, bk: Booking, strict: bool := true)
    requires BooksMatch(l, bookings) && CreditsMatch(l, bookings, strict)
    requires b in bookings && bookings[b].user == bk.user && bookings[b].org == bk.org
    requires Held(bk) == Held(bookings[b]) && ShareFits(bk)
    ensures BooksMatch(l, bookings[b := bk])
    ensures (!strict || Resting(bk) || MayHold(l, bookings, b)) ==> CreditsMatch(l, bookings[b := bk], strict)
  {
    hide Total;
    var bookings' := bookings[b := bk];
    forall k | k in l.debits ensures k.booking in bookings' && OwnHours(l, bookings', k) {
      assert OwnHours(l, bookings, k);
    }
    if !strict || Resting(bk) || MayHold(l, bookings, b) {
      CreditsCarryOver(l, bookings, bookings', strict);
    }
  }

  // ---- a move ------------------------------------------------------------------------

  /** The outcome of bringing a pack share in line with a new length. */
  datatype Move = Move(ledger: Ledger, share: int, uncovered: int)

  ghost function SettledMove(l: Ledger, b: BookingId, bk: Booking, newDuration: int, now: int): Move
    requires forall k | k in l.debits :: k.purchase in l.purchases
  {
    if bk.share <= 0 then Move(l, bk.share, 0)
    else if !HoldsHours(bk.status) then Move(l, Min(bk.share, newDuration), 0)
    else if newDuration < bk.share then
      var order := RowOrder(l, b);
      var kept := KeepFirst(RowHours(l.debits, b, order), newDuration);
      Move(Rebase(l, PutRows(l.debits, b, order, kept)), newDuration, 0)
    else if newDuration <= bk.duration then Move(l, bk.share, 0)
    else
      var extra := newDuration - bk.duration;
      var draws := ShareDraws(l.purchases, bk.user, bk.org, extra, now, None);
      Move(Rebase(l, WithRows(l.debits, b, draws)), bk.share + TotalDrawn(draws), extra - TotalDrawn(draws))
  }

  lemma ShrinkingKeepsBooks(l: Ledger, bookings: BookingTable, b: BookingId, bk: Booking, strict: bool := true)
    requires BooksMatch(l, bookings) && CreditsMatch(l, bookings, strict)
    requires b in bookings && bookings[b].user == bk.user && bookings[b].org == bk.org
    requires bk.status == bookings[b].status && (Resting(bookings[b]) ==> Resting(bk))
    requires HoldsHours(bk.status) && 0 <= bk.share <= bookings[b].share && ShareFits(bk)
    ensures var order := RowOrder(l, b);
            var l' := Rebase(l, PutRows(l.debits, b, order, KeepFirst(RowHours(l.debits, b, order), bk.share)));
            BooksMatch(l', bookings[b := bk]) && CreditsMatch(l', bookings[b := bk], strict)
  {
    hide Total;
    var order := RowOrder(l, b);
    var hours := RowHours(l.debits, b, order);
    var kept := KeepFirst(hours, bk.share);
    RowOrderListsRows(l, b);
    forall i | 0 <= i < |order| ensures hours[i] > 0 {
      assert order[i] in order;
    }
    KeepFirstSum(hours, bk.share);
    RowsAddUp(l.debits, b, order) by {
      forall k | k in l.debits && k.booking == b ensures k.purchase in order {
        assert k == DebitKey(b, k.purchase);
      }
    }
    var rows := PutRows(l.debits, b, order, kept);
    PutRowsRows(l.debits, b, order, kept);
    OneBookingMoves(b, l.debits, rows);
    RowsAddUp(rows, b, order) by {
      forall k | k in rows && k.booking == b ensures k.purchase in order {
        assert k in l.debits && k == DebitKey(b, k.purchase);
      }
    }
    forall p | p in l.purchases ensures HoursOn(rows, p) - HoursOn(l.debits, p) <= l.purchases[p].remaining {
      assert BalancedPurchase(l, p);
      if DebitKey(b, p) in l.debits {
        var i := Position(order, p);
        assert hours[i] == Row(l.debits, DebitKey(b, p));
        assert kept[i] == RowHours(rows, b, order)[i] == Row(rows, DebitKey(b, p));
      }
    }
    RebaseKeepsBalance(l, rows);
    forall k | k in rows && k.booking == b
      ensures && k.purchase in l.purchases
              && l.purchases[k.purchase].user == bk.user && l.purchases[k.purchase].org == bk.org
    {
      assert k in l.debits && OwnHours(l, bookings, k);
    }
    OneBookingKeepsBooks(l, bookings, b, bk, rows, strict);
  }

  lemma GrowingKeepsBooks(l: Ledger, bookings: BookingTable, b: BookingId, bk: Booking, now: int, strict: bool := true)
    requires BooksMatch(l, bookings) && CreditsMatch(l, bookings, strict)
    requires b in bookings && bookings[b].user == bk.user && bookings[b].org == bk.org
    requires bk.status == bookings[b].status && (Resting(bookings[b]) ==> Resting(bk))
    requires HoldsHours(bk.status) && bk.duration > bookings[b].duration
    requires bk.share == bookings[b].share
                         + TotalDrawn(ShareDraws(l.purchases, bk.user, bk.org, bk.duration - bookings[b].duration, now, None))
    ensures var draws := ShareDraws(l.purchases, bk.user, bk.org, bk.duration - bookings[b].duration, now, None);
            && 0 <= TotalDrawn(draws) <= bk.duration - bookings[b].duration
            && BooksMatch(Rebase(l, WithRows(l.debits, b, draws)), bookings[b := bk])
            && CreditsMatch(Rebase(l, WithRows(l.debits, b, draws)), bookings[b := bk], strict)
  {
    hide *;
    var was := bookings[b];
    var extra := bk.duration - was.duration;
    var draws := ShareDraws(l.purchases, was.user, was.org, extra, now, None);
    ShareDrawsFit(l.purchases, was.user, was.org, extra, now, None);
    ExtraIs(extra);
    FitsTheBooks(l, bookings, b);
    ShareFitsMeans(bk);
    HeldIs(was);
    HeldIs(bk);
    HoldingIsNotResting(was);
    AlreadyHolding(l, bookings, b);
    DrawingKeepsBooks(l, bookings, b, bk, draws, now, None, strict);
    DrawingIsRebase(l, b, draws);
  }

  lemma ExtraIs(extra: int)
    ensures extra > 0 ==> Max(extra, 0) == extra
  {
  }

  lemma HeldIs(bk: Booking)
    ensures HoldsHours(bk.status) ==> Held(bk) == bk.share
  {
  }

  /** A move keeps the books, whatever the booking's status, and the hours add
      up: what the pack covers and what it does not is the old share plus the
      added length. */
  lemma MovingKeepsBooks(l: Ledger, bookings: BookingTable, b: BookingId, bk: Booking, now: int, strict: bool := true)
    requires BooksMatch(l, bookings) && CreditsMatch(l, bookings, strict)
    requires b in bookings && bookings[b].user == bk.user && bookings[b].org == bk.org
    requires bk.status == bookings[b].status && (Resting(bookings[b]) ==> Resting(bk))
    requires 0 <= bk.duration
    requires bk.share == SettledMove(l, b, bookings[b], bk.duration, now).share
    ensures var move := SettledMove(l, b, bookings[b], bk.duration, now);
            && BooksMatch(move.ledger, bookings[b := bk]) && CreditsMatch(move.ledger, bookings[b := bk], strict)
            && (bookings[b].share > 0 && HoldsHours(bk.status) && bk.duration > bookings[b].duration ==>
                  move.share + move.uncovered == bookings[b].share + (bk.duration - bookings[b].duration))
            && 0 <= move.uncovered
  {
    hide *;
    var was := bookings[b];
    FitsTheBooks(l, bookings, b);
    MoveCases(l, b, was, bk.duration, now);
    if was.share > 0 && HoldsHours(was.status) && bk.duration < was.share {
      ShareFitsMeans(bk);
      ShrinkingKeepsBooks(l, bookings, b, bk, strict);
    } else if was.share > 0 && HoldsHours(was.status) && bk.duration > was.duration {
      GrowingKeepsBooks(l, bookings, b, bk, now, strict);
    } else {
      MovedWithinTheShare(was, bk);
      RewritingKeepsBooks(l, bookings, b, bk, strict);
      if !Resting(bookings[b]) { AlreadyHolding(l, bookings, b); }
    }
  }

  lemma FitsTheBooks(l: Ledger, bookings: BookingTable, b: BookingId)
    requires BooksMatch(l, bookings) && b in bookings
    ensures 0 <= bookings[b].share <= bookings[b].duration
    ensures forall k | k in l.debits :: k.purchase in l.purchases
  {
    hide HoursOn, HoursFor;
    assert ShareFits(bookings[b]);
  }

  lemma ShareFitsMeans(bk: Booking)
    ensures ShareFits(bk) <==> 0 <= bk.share <= bk.duration
  {
  }

  lemma HoldingIsNotResting(bk: Booking)
    requires HoldsHours(bk.status)
    ensures !Resting(bk)
  {
  }

  lemma AlreadyHolding(l: Ledger, bookings: BookingTable, b: BookingId)
    requires b in bookings && !Resting(bookings[b])
    ensures MayHold(l, bookings, b)
  {
  }

  /** A move that takes no hours from the bank and gives none back. */
  lemma MovedWithinTheShare(was: Booking, bk: Booking)
    requires 0 <= was.share <= was.duration && 0 <= bk.duration && bk.status == was.status
    requires if was.share <= 0 then bk.share == was.share
             else if !HoldsHours(was.status) then bk.share == Min(was.share, bk.duration)
             else was.share <= bk.duration && bk.share == was.share
    ensures Held(bk) == Held(was) && ShareFits(bk)
  {
  }

  lemma MoveCases(l: Ledger, b: BookingId, bk: Booking, newDuration: int, now: int)
    requires forall k | k in l.debits :: k.purchase in l.purchases
    ensures var move := SettledMove(l, b, bk, newDuration, now);
            if bk.share <= 0 then move == Move(l, bk.share, 0)
            else if !HoldsHours(bk.status) then move == Move(l, Min(bk.share, newDuration), 0)
            else if newDuration < bk.share then
              var order := RowOrder(l, b);
              move == Move(Rebase(l, PutRows(l.debits, b, order, KeepFirst(RowHours(l.debits, b, order), newDuration))), newDuration, 0)
            else if newDuration <= bk.duration then move == Move(l, bk.share, 0)
            else
              var draws := ShareDraws(l.purchases, bk.user, bk.org, newDuration - bk.duration, now, None);
              move == Move(Rebase(l, WithRows(l.debits, b, draws)), bk.share + TotalDrawn(draws),
                           newDuration - bk.duration - TotalDrawn(draws))
  {
    hide Rebase, RowOrder, KeepFirst, RowHours, PutRows, WithRows, ShareDraws, TotalDrawn, HoldsHours;
  }

  // ---- reinstating ----------------------------------------------------------------------

  /** Taking a cancelled booking's hours again never touches the credit its own
      cancellation left: whether that credit can be reversed is what it was before. */
  lemma RedebitSparesOwnCredit(l: Ledger, b: BookingId, bk: Booking, previous: Status, next: Status, now: int)
    requires Balanced(l) && !(HoldsHours(previous) && !HoldsHours(next))
    ensures var settled := SettledStatus(l, b, bk, previous, next, now);
            settled.Some? ==>
              && settled.value.purchases.Keys == l.purchases.Keys
              && forall p | p in l.purchases ::
                   var q := settled.value.purchases[p];
                   && q.user == l.purchases[p].user && q.org == l.purchases[p].org
                   && q.source == l.purchases[p].source && q.status == l.purchases[p].status
                   && q.total == l.purchases[p].total
                   && (WrittenOff(l.purchases[p]) || l.purchases[p].source == Some(b) ==> q == l.purchases[p])
  {
    hide Total, HoursOn, HoursFor;
    if bk.share > 0 && !HoldsHours(previous) && HoldsHours(next) {
      var draws := ShareDraws(l.purchases, bk.user, bk.org, bk.share, now, Some(b));
      ShareDrawsFit(l.purchases, bk.user, bk.org, bk.share, now, Some(b));
      DebitedKeepsKeys(l.purchases, draws);
      DrawnKeepsBalance(l, b, draws);
      RebaseKeepsIdentity(l, WithRows(l.debits, b, draws));
    }
  }

  /** The books once a booking holds its hours again and its credit is gone. */
  lemma ReinstatingKeepsBooks(l: Ledger, bookings: BookingTable, b: BookingId, bk: Booking, now: int,
                              strict: bool := true)
    requires BooksMatch(l, bookings) && CreditsMatch(l, bookings, strict)
    requires b in bookings && bk == bookings[b].(status := bk.status, holdExpires := bk.holdExpires)
    requires !HoldsHours(bookings[b].status) && HoldsHours(bk.status)
    ensures var settled := SettledStatus(l, b, bookings[b], bookings[b].status, bk.status, now);
            settled.Some? ==>
              var reversal := ReversalOf(settled.value.purchases, b);
              && (reversal.NothingToReverse? ==>
                    BooksMatch(settled.value, bookings[b := bk]) && CreditsMatch(settled.value, bookings[b := bk], strict))
              && (reversal.Reverse? ==>
                    reversal.id in settled.value.purchases
                    && var l' := settled.value.(purchases := settled.value.purchases[reversal.id := Reversed(settled.value.purchases[reversal.id])]);
                    BooksMatch(l', bookings[b := bk]) && CreditsMatch(l', bookings[b := bk], strict))
  {
    hide Total, HoursOn, HoursFor;
    var settled := SettledStatus(l, b, bookings[b], bookings[b].status, bk.status, now);
    if settled.Some? {
      var l1, bookings' := settled.value, bookings[b := bk];
      RedebitSparesOwnCredit(l, b, bookings[b], bookings[b].status, bk.status, now);
      StatusChangeKeepsBooks(l, bookings, b, bk, now, strict);
      hide SettledStatus, Balanced, BooksMatch;
      var reversal := ReversalOf(l1.purchases, b);
      forall q | q in l.purchases && l.purchases[q].source != Some(b)
        ensures CreditStands(l1.purchases[q], bookings', strict)
      {
        assert CreditStands(l.purchases[q], bookings, strict);
      }
      if reversal.Reverse? {
        ReversingKeepsBooks(l, l1, bookings, b, bk, reversal.id, strict);
      } else if reversal.NothingToReverse? {
        forall q | q in l.purchases && l.purchases[q].source == Some(b)
          ensures CreditStands(l1.purchases[q], bookings', strict)
        {
          assert CreditStands(l.purchases[q], bookings, strict);
          assert q in CreditsOf(l1.purchases, b);
        }
      }
    }
  }

  lemma ReversingKeepsBooks(l: Ledger, l1: Ledger, bookings: BookingTable, b: BookingId, bk: Booking,
                            p: PurchaseId, strict: bool := true)
    requires BooksMatch(l1, bookings[b := bk]) && CreditsMatch(l, bookings, strict)
    requires b in bookings
    requires bk.user == bookings[b].user && bk.org == bookings[b].org
    requires p in l.purchases && l1.purchases.Keys == l.purchases.Keys && l.purchases[p].source == Some(b)
    requires l1.purchases[p] == l.purchases[p] && l1.purchases[p].used <= 0
    requires forall q | q in l.purchases :: l1.purchases[q].source == l.purchases[q].source
    requires forall q | q in l.purchases && l.purchases[q].source != Some(b) ::
               CreditStands(l1.purchases[q], bookings[b := bk], strict)
    ensures var l' := l1.(purchases := l1.purchases[p := Reversed(l1.purchases[p])]);
            BooksMatch(l', bookings[b := bk]) && CreditsMatch(l', bookings[b := bk], strict)
  {
    hide Total, HoursOn, HoursFor;
    var bookings' := bookings[b := bk];
    var l' := l1.(purchases := l1.purchases[p := Reversed(l1.purchases[p])]);
    assert BalancedPurchase(l1, p) && CreditStands(l.purchases[p], bookings, strict);
    NoRowsOnUnused(l1, p);
    forall q | q in l'.purchases ensures BalancedPurchase(l', q) && CreditStands(l'.purchases[q], bookings', strict) {
      assert BalancedPurchase(l1, q);
      assert q != p ==> l.purchases[q].source != Some(b);
    }
    forall k | k in l'.debits ensures k.booking in bookings' && OwnHours(l', bookings', k) {
      assert OwnHours(l1, bookings', k) && k.purchase != p;
    }
  }

  // ---- purchases ------------------------------------------------------------------------

  /** A purchase nobody has drawn on, written or rewritten. */
  lemma PurchaseKeepsBooks(l: Ledger, bookings: BookingTable, p: PurchaseId, row: Purchase, strict: bool := true)
    requires BooksMatch(l, bookings) && CreditsMatch(l, bookings, strict)
    requires p in l.purchases ==> l.purchases[p].used == 0
    requires row.used == 0 && row.remaining >= 0 && (WrittenOff(row) || row.remaining == row.total)
    requires CreditStands(row, bookings, strict)
    requires row.source.Some? ==> CreditsOf(l.purchases, row.source.value) <= {p}
    ensures var l' := l.(purchases := l.purchases[p := row]);
            BooksMatch(l', bookings) && CreditsMatch(l', bookings, strict)
  {
    hide Total, HoursOn, HoursFor, WrittenOff, CreditStands, CreditsMatch, BalancedPurchase;
    NoRowsOnUnused(l, p);
    UndrawnPurchaseKeepsBalance(l, p, row);
    NewCreditStands(l, bookings, p, row, strict);
    var l' := l.(purchases := l.purchases[p := row]);
    forall k | k in l'.debits ensures k.booking in bookings && OwnHours(l', bookings, k) {
      assert OwnHours(l, bookings, k) && k.purchase != p;
    }
  }

  lemma UndrawnPurchaseKeepsBalance(l: Ledger, p: PurchaseId, row: Purchase)
    requires Balanced(l) && forall k | k in l.debits :: k.purchase != p
    requires row.used == 0 && row.remaining >= 0 && (WrittenOff(row) || row.remaining == row.total)
    ensures Balanced(l.(purchases := l.purchases[p := row]))
  {
    var l' := l.(purchases := l.purchases[p := row]);
    assert RowsOn(l.debits, p) == map[];
    assert HoursOn(l.debits, p) == 0 by { NothingTotalsZero(); }
    hide Total, HoursOn, WrittenOff;
    forall q | q in l'.purchases ensures BalancedPurchase(l', q) {
      if q != p {
        assert BalancedPurchase(l, q);
      }
    }
  }

  lemma NewCreditStands(l: Ledger, bookings: BookingTable, p: PurchaseId, row: Purchase, strict: bool := true)
    requires CreditsMatch(l, bookings, strict) && CreditStands(row, bookings, strict)
    requires row.source.Some? ==> CreditsOf(l.purchases, row.source.value) <= {p}
    ensures CreditsMatch(l.(purchases := l.purchases[p := row]), bookings, strict)
  {
    hide CreditStands;
    assert forall q | q in l.purchases && row.source.Some? && l.purchases[q].source == row.source ::
        q in CreditsOf(l.purchases, row.source.value);
  }

  /** A purchase whose status alone changes. */
  lemma StatusKeepsBooks(l: Ledger, bookings: BookingTable, p: PurchaseId, status: PurchaseStatus, strict: bool := true)
    requires BooksMatch(l, bookings) && CreditsMatch(l, bookings, strict)
    requires p in l.purchases && l.purchases[p].source == None
    ensures var l' := l.(purchases := l.purchases[p := l.purchases[p].(status := status)]);
            BooksMatch(l', bookings) && CreditsMatch(l', bookings, strict)
  {
    hide Total, HoursOn, HoursFor;
    var l' := l.(purchases := l.purchases[p := l.purchases[p].(status := status)]);
    forall q | q in l'.purchases ensures BalancedPurchase(l', q) && CreditStands(l'.purchases[q], bookings, strict) {
      assert BalancedPurchase(l, q) && CreditStands(l.purchases[q], bookings, strict);
    }
    forall k | k in l'.debits ensures k.booking in bookings && OwnHours(l', bookings, k) {
      assert OwnHours(l, bookings, k);
    }
  }

  lemma NothingTotalsZero()
    ensures Total<DebitKey>(map[]) == 0
  {
  }

  lemma NoRowsOnUnused(l: Ledger, p: PurchaseId)
    requires Balanced(l)
    requires p in l.purchases ==> l.purchases[p].used == 0
    ensures forall k | k in l.debits :: k.purchase != p
  {
    hide Total;
    RowsBoundHours(l.debits);
    assert p in l.purchases ==> BalancedPurchase(l, p);
  }
}
