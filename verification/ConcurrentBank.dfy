/** The ledger under concurrency: transactions interleave statement by
    statement, a row lock taken for a purchase or a booking is held until the
    transaction ends, and candidates are read without any lock. */
module ConcurrentBank {
  import opened Model
  import opened Ledgers
  import opened WalkOptimality
  import opened Settlement
  import Bank
  import Credit

  type TxnId = nat

  // ---- transactions ----------------------------------------------------------------------

  /** What a transaction is in the middle of. */
  datatype Todo =
    | Idle
    | Walking(needed: int, now: int, own: Option<BookingId>)
    | Releasing(b: BookingId)
    | Shrinking(b: BookingId, giving: seq<PurchaseId>, surplus: int)
    | Reversing(b: BookingId)

  /** `view` holds the purchases it has locked, as it left them, and `wants`
      those it has still to lock; `rows` are the debit rows of the bookings it
      has locked; `pending` are draws for `drawnFor`, made and not yet written as
      rows; `operations` counts the ledger operations it has begun. */
  datatype Txn = Txn(
    bookings: set<BookingId>,
    view: PurchaseTable,
    rows: DebitTable,
    pending: seq<Draw>,
    drawnFor: BookingId,
    wants: seq<PurchaseId>,
    todo: Todo,
    operations: nat)

  const NewTxn: Txn := Txn({}, map[], map[], [], 0, [], Idle, 0)

  datatype System = System(committed: Ledger, txns: map<TxnId, Txn>)

  function OnlyOf(debits: DebitTable, bookings: set<BookingId>): DebitTable {
    map k | k in debits && k.booking in bookings :: debits[k]
  }

  predicate PurchaseFree(s: System, t: TxnId, p: PurchaseId) {
    forall u | u in s.txns && u != t :: p !in s.txns[u].view
  }

  predicate BookingFree(s: System, t: TxnId, b: BookingId) {
    forall u | u in s.txns && u != t :: b !in s.txns[u].bookings
  }

  /** The transaction with `p` locked: it reads its own version, or else the
      committed one of that moment. */
  function WithLock(l: Ledger, txn: Txn, p: PurchaseId): Txn
    requires p in l.purchases
  {
    if p in txn.view then txn else txn.(view := txn.view[p := l.purchases[p]])
  }

  /** What a query of the transaction sees, without locking anything. */
  function Visible(l: Ledger, txn: Txn): PurchaseTable {
    l.purchases + txn.view
  }

  // ---- statements of a transaction ---------------------------------------------------------

  /** Re-validated under the lock, drawn on if there is something to draw. */
  function Drawn(txn: Txn, p: PurchaseId): Txn
    requires p in txn.view && txn.todo.Walking?
  {
    var todo := txn.todo;
    if !Drawable(txn.view[p], todo.now, todo.own) then txn
    else
      var taken := Min(txn.view[p].remaining, todo.needed);
      txn.(view := txn.view[p := Spend(txn.view[p], taken)], pending := txn.pending + [Draw(p, taken)],
           todo := Walking(todo.needed - taken, todo.now, todo.own))
  }

  /** `hours` of the booking's row on `p` given back, under the lock. */
  function Given(txn: Txn, b: BookingId, p: PurchaseId, hours: int): Txn {
    if p !in txn.view then txn
    else txn.(view := txn.view[p := Spend(txn.view[p], -hours)], rows := Bank.Lowered(txn.rows, DebitKey(b, p), hours))
  }

  /** The credit of booking `b` taken out of circulation under its lock, unless
      some of it is spent, or it is out already. */
  function CreditTaken(txn: Txn, b: BookingId, p: PurchaseId): Txn
    requires p in txn.view
  {
    var credit := txn.view[p];
    if credit.source != Some(b) || credit.used > 0 || credit.status == Withdrawn || credit.remaining < credit.total then txn
    else txn.(view := txn.view[p := Credit.Reversed(credit)])
  }

  function BookingLocked(l: Ledger, txn: Txn, b: BookingId): Txn {
    txn.(bookings := txn.bookings + {b}, rows := txn.rows + OnlyOf(l.debits, {b}))
  }

  function Undone(txn: Txn): Txn
    requires forall d | d in txn.pending :: d.purchase in txn.view
  {
    txn.(view := Bank.Restored(txn.view, txn.pending), pending := [])
  }

  function Recorded(txn: Txn): Txn {
    txn.(rows := WithRows(txn.rows, txn.drawnFor, txn.pending), pending := [])
  }

  /** The next purchase locked, and what the operation under way does with it. */
  function LockedNext(l: Ledger, txn: Txn): Txn
    requires txn.wants != [] && txn.wants[0] in l.purchases
  {
    var p := txn.wants[0];
    var locked := WithLock(l, txn, p).(wants := txn.wants[1..]);
    match txn.todo
    case Walking(_, _, _) => Drawn(locked, p)
    case Releasing(b) => Given(locked, b, p, Row(txn.rows, DebitKey(b, p)))
    case Reversing(b) => CreditTaken(locked, b, p)
    case _ => locked
  }

  /** What an operation does once it needs no further lock. */
  function Finished(txn: Txn): Txn {
    match txn.todo
    case Shrinking(b, giving, surplus) =>
      if giving != [] && surplus > 0 then
        var n := |giving| - 1;
        var give := Min(Row(txn.rows, DebitKey(b, giving[n])), surplus);
        Given(txn, b, giving[n], give).(todo := Shrinking(b, giving[..n], surplus - give))
      else txn.(todo := Idle)
    case _ => txn.(todo := Idle, wants := [])
  }

  // ---- the system ----------------------------------------------------------------------------

  datatype Step =
    | Begin
    | LockBooking(b: BookingId)
    | StartWalk(b: BookingId, user: UserId, org: OrgId, hours: int, now: int, own: Option<BookingId>)
    | StartRelease(b: BookingId)
    | StartShrink(b: BookingId, surplus: int)
    | StartReverse(b: BookingId, credit: PurchaseId)
    | GoOn
    | UndoDraws
    | RecordDraws
    | Commit
    | Rollback

  datatype Action = Action(txn: TxnId, step: Step)

  predicate CanStart(txn: Txn, b: BookingId) {
    b in txn.bookings && txn.todo.Idle? && txn.pending == []
  }

  /** The walk has what it needs, or the operation has all its locks. */
  predicate NeedsNoLock(txn: Txn) {
    txn.wants == [] || (txn.todo.Walking? && txn.todo.needed <= 0)
  }

  /** What the step makes of its own transaction; `None` when it must wait or
      cannot be taken now. */
  function Advanced(s: System, t: TxnId, step: Step): Option<Txn>
    requires t in s.txns
  {
    var l, txn := s.committed, s.txns[t];
    match step
    case LockBooking(b) =>
      if b in txn.bookings || !BookingFree(s, t, b) || !txn.todo.Idle? then None else Some(BookingLocked(l, txn, b))
    case StartWalk(b, user, org, hours, now, own) =>
      if !CanStart(txn, b) then None
      else Some(txn.(wants := BankOrder(Visible(l, txn), user, org, now), todo := Walking(hours, now, own), drawnFor := b,
                     operations := txn.operations + 1))
    case StartRelease(b) =>
      if !CanStart(txn, b) || (exists k | k in txn.rows :: k.purchase !in l.purchases) then None
      else Some(txn.(wants := RowOrder(Ledger(l.purchases, txn.rows), b), todo := Releasing(b), operations := txn.operations + 1))
    case StartShrink(b, surplus) =>
      if !CanStart(txn, b) || (exists k | k in txn.rows :: k.purchase !in l.purchases) then None
      else
        var order := RowOrder(Ledger(l.purchases, txn.rows), b);
        Some(txn.(wants := order, todo := Shrinking(b, order, surplus), operations := txn.operations + 1))
    case StartReverse(b, credit) =>
      if !CanStart(txn, b) || credit !in l.purchases || l.purchases[credit].source != Some(b) then None
      else Some(txn.(wants := [credit], todo := Reversing(b), operations := txn.operations + 1))
    case GoOn =>
      if txn.todo.Idle? then None
      else if NeedsNoLock(txn) then Some(Finished(txn))
      else if txn.wants[0] !in l.purchases || !PurchaseFree(s, t, txn.wants[0]) then None
      else Some(LockedNext(l, txn))
    case UndoDraws =>
      if !txn.todo.Idle? || (exists d | d in txn.pending :: d.purchase !in txn.view) then None else Some(Undone(txn))
    case RecordDraws =>
      if !txn.todo.Idle? then None else Some(Recorded(txn))
    case _ => None
  }

  function Committed(l: Ledger, txn: Txn): Ledger {
    Ledger(l.purchases + txn.view, Without(l.debits, txn.bookings) + txn.rows)
  }

  /** The system after one action; an action that must wait changes nothing. */
  function Next(s: System, a: Action): System {
    if a.step.Begin? then
      if a.txn in s.txns then s else s.(txns := s.txns[a.txn := NewTxn])
    else if a.txn !in s.txns then s
    else if a.step.Commit? then
      var txn := s.txns[a.txn];
      if txn.todo.Idle? && txn.pending == [] then System(Committed(s.committed, txn), s.txns - {a.txn}) else s
    else if a.step.Rollback? then s.(txns := s.txns - {a.txn})
    else
      var advanced := Advanced(s, a.txn, a.step);
      if advanced.Some? then s.(txns := s.txns[a.txn := advanced.value]) else s
  }

  function After(s: System, actions: seq<Action>): System
    decreases |actions|
  {
    if actions == [] then s else After(Next(s, actions[0]), actions[1..])
  }

  // ---- what every interleaving keeps -----------------------------------------------------------

  /** How many hours more than committed the transaction has taken from `p`. */
  ghost function Change(l: Ledger, txn: Txn, p: PurchaseId): int {
    HoursOn(txn.rows, p) - HoursOn(OnlyOf(l.debits, txn.bookings), p) + Taken(txn.pending, p)
  }

  /** `q` is the unspent credit `spent` taken out of circulation. */
  predicate TakenOut(q: Purchase, spent: Purchase) {
    spent.used == 0 && spent.source.Some? && q == Credit.Reversed(spent)
  }

  ghost predicate ViewFits(l: Ledger, txn: Txn, p: PurchaseId)
    requires p in txn.view
  {
    && p in l.purchases
    && var spent := Spend(l.purchases[p], Change(l, txn, p));
    && spent.remaining >= 0
    && (txn.view[p] == spent || TakenOut(txn.view[p], spent))
  }

  /** A row on a purchase the transaction has not locked is as committed. */
  ghost predicate RowFits(l: Ledger, txn: Txn, k: DebitKey) {
    k.purchase !in txn.view ==>
      (k in txn.rows <==> k in l.debits && k.booking in txn.bookings) && (k in txn.rows ==> txn.rows[k] == l.debits[k])
  }

  ghost predicate Works(l: Ledger, txn: Txn) {
    match txn.todo
    case Idle => true
    case Walking(_, _, _) => txn.drawnFor in txn.bookings
    case Releasing(b) => b in txn.bookings
    case Shrinking(b, _, _) => b in txn.bookings
    case Reversing(b) => b in txn.bookings
  }

  ghost predicate TxnFits(l: Ledger, txn: Txn) {
    && PositiveRows(txn.rows)
    && (forall k | k in txn.rows :: k.booking in txn.bookings && k.purchase in l.purchases)
    && (forall d | d in txn.pending :: d.purchase in txn.view && d.hours > 0)
    && (txn.pending != [] ==> txn.drawnFor in txn.bookings)
    && (forall p | p in txn.view :: ViewFits(l, txn, p))
    && (forall k: DebitKey :: RowFits(l, txn, k))
    && Works(l, txn)
  }

  ghost predicate Apart(one: Txn, other: Txn) {
    one.view.Keys !! other.view.Keys && one.bookings !! other.bookings
  }

  ghost predicate Safe(s: System) {
    && Balanced(s.committed)
    && (forall t | t in s.txns :: TxnFits(s.committed, s.txns[t]))
    && (forall t, u | t in s.txns && u in s.txns && t != u :: Apart(s.txns[t], s.txns[u]))
  }

  // ---- one transaction's statements --------------------------------------------------------------

  lemma Smaller(b: DebitTable, k: DebitKey)
    requires k in b
    ensures |b - {k}| < |b|
  {
    assert (b - {k}).Keys == b.Keys - {k};
  }

  lemma TakingOut(a: DebitTable, b: DebitTable, k: DebitKey)
    requires a.Keys !! b.Keys && k in b
    ensures var rest := b - {k};
            && |rest| < |b| && a.Keys !! rest.Keys && k !in rest && k !in a + rest
            && a + b == (a + rest)[k := b[k]] && b == rest[k := b[k]]
  {
    Smaller(b, k);
    PutBack(b, k);
    PutLast(a, b - {k}, k, b[k]);
  }

  lemma PutBack(b: DebitTable, k: DebitKey)
    requires k in b
    ensures b == (b - {k})[k := b[k]]
  {
  }

  lemma PutLast(a: DebitTable, rest: DebitTable, k: DebitKey, v: int)
    ensures a + rest[k := v] == (a + rest)[k := v]
  {
  }

  lemma {:induction false} HoursOfUnion(a: DebitTable, b: DebitTable, p: PurchaseId)
    requires a.Keys !! b.Keys
    ensures HoursOn(a + b, p) == HoursOn(a, p) + HoursOn(b, p)
    decreases |b|
  {
    hide *;
    if k :| k in b {
      var rest := b - {k};
      TakingOut(a, b, k);
      HoursOfUnion(a, rest, p);
      OneRowMore(a + rest, k, b[k], p);
      OneRowMore(rest, k, b[k], p);
    } else {
      assert a + b == a;
      NoRowsNoHours(b, p);
    }
  }

  lemma NoRowsNoHours(rows: DebitTable, p: PurchaseId)
    requires forall k :: k !in rows
    ensures HoursOn(rows, p) == 0
  {
    assert RowsOn(rows, p) == map[];
  }

  lemma OneRowMore(rows: DebitTable, k: DebitKey, hours: int, p: PurchaseId)
    requires k !in rows
    ensures HoursOn(rows[k := hours], p) == HoursOn(rows, p) + if p == k.purchase then hours else 0
  {
    hide HoursOn, HoursFor;
    SetRow(rows, k, hours);
  }

  lemma OnlyOfGrows(debits: DebitTable, bookings: set<BookingId>, b: BookingId, p: PurchaseId)
    requires b !in bookings
    ensures HoursOn(OnlyOf(debits, bookings + {b}), p) == HoursOn(OnlyOf(debits, bookings), p) + HoursOn(OnlyOf(debits, {b}), p)
  {
    HoursOfUnion(OnlyOf(debits, bookings), OnlyOf(debits, {b}), p);
    assert OnlyOf(debits, bookings) + OnlyOf(debits, {b}) == OnlyOf(debits, bookings + {b});
  }

  lemma {:induction false} TakenIsNatural(draws: seq<Draw>, p: PurchaseId)
    requires forall d | d in draws :: d.hours > 0
    ensures Taken(draws, p) >= 0
    ensures Taken(draws, p) == 0 ==> forall d | d in draws :: d.purchase != p
  {
    if draws != [] {
      assert draws[0] in draws;
      TakenIsNatural(draws[1..], p);
    }
  }

  lemma SplitRows(debits: DebitTable, bookings: set<BookingId>, p: PurchaseId)
    ensures HoursOn(debits, p) == HoursOn(Without(debits, bookings), p) + HoursOn(OnlyOf(debits, bookings), p)
  {
    var outside, before := Without(debits, bookings), OnlyOf(debits, bookings);
    assert debits == outside + before;
    HoursOfUnion(outside, before, p);
  }

  lemma NaturalRows(rows: DebitTable, p: PurchaseId)
    requires PositiveRows(rows)
    ensures HoursOn(rows, p) >= 0
    ensures HoursOn(rows, p) == 0 ==> forall k | k in rows :: k.purchase != p
  {
    hide HoursOn, HoursFor;
    RowsBoundHours(rows);
  }

  /** Hours used on a purchase, as the transaction leaves it, are the rows of
      everybody else and its own, written or still to be written. */
  lemma UsedIsDrawn(l: Ledger, txn: Txn, p: PurchaseId)
    requires Balanced(l) && TxnFits(l, txn) && p in l.purchases
    ensures var used := Spend(l.purchases[p], Change(l, txn, p)).used;
            && used == HoursOn(Without(l.debits, txn.bookings), p) + HoursOn(txn.rows, p) + Taken(txn.pending, p)
            && used >= 0
            && (used == 0 ==> (forall k | k in txn.rows :: k.purchase != p) && forall d | d in txn.pending :: d.purchase != p)
  {
    assert BalancedPurchase(l, p);
    SplitRows(l.debits, txn.bookings, p);
    assert PositiveRows(Without(l.debits, txn.bookings));
    hide HoursOn, BalancedPurchase, ViewFits, RowFits, OnlyOf, Without;
    NaturalRows(Without(l.debits, txn.bookings), p);
    NaturalRows(txn.rows, p);
    TakenIsNatural(txn.pending, p);
  }

  // Locking a purchase.

  lemma NewLockFits(l: Ledger, txn: Txn, p: PurchaseId)
    requires Balanced(l) && TxnFits(l, txn) && p in l.purchases && p !in txn.view
    ensures Change(l, txn, p) == 0 && l.purchases[p].remaining >= 0
  {
    assert BalancedPurchase(l, p);
    TakenOnlyFromDrawn(txn.pending, p);
    var rows, before := RowsOn(txn.rows, p), RowsOn(OnlyOf(l.debits, txn.bookings), p);
    forall k: DebitKey | k.purchase == p
      ensures k in rows <==> k in before
      ensures k in rows ==> rows[k] == before[k]
    {
      assert RowFits(l, txn, k);
    }
    assert rows == before;
  }

  lemma LockingFits(l: Ledger, txn: Txn, p: PurchaseId)
    requires Balanced(l) && TxnFits(l, txn) && p in l.purchases
    ensures TxnFits(l, WithLock(l, txn, p)) && p in WithLock(l, txn, p).view
  {
    hide Balanced, HoursOn;
    if p !in txn.view {
      NewLockFits(l, txn, p);
      var after := WithLock(l, txn, p);
      forall q | q in after.view ensures ViewFits(l, after, q) {
        if q != p { assert ViewFits(l, txn, q); }
      }
      forall k: DebitKey ensures RowFits(l, after, k) { assert RowFits(l, txn, k); }
    }
  }

  // Drawing on it.

  lemma DrawnFits(l: Ledger, txn: Txn, p: PurchaseId, q: PurchaseId)
    requires p in txn.view && txn.todo.Walking? && txn.todo.needed > 0
    requires q in txn.view && ViewFits(l, txn, q)
    ensures ViewFits(l, Drawn(txn, p), q)
  {
    hide HoursOn;
    var todo := txn.todo;
    if Drawable(txn.view[p], todo.now, todo.own) {
      var d := Draw(p, Min(txn.view[p].remaining, todo.needed));
      TakenAppend(txn.pending, [d], q);
      assert Taken([d], q) == if q == p then d.hours else 0;
    }
  }

  lemma DrawingFits(l: Ledger, txn: Txn, p: PurchaseId)
    requires TxnFits(l, txn) && p in txn.view && txn.todo.Walking? && txn.todo.needed > 0
    ensures TxnFits(l, Drawn(txn, p))
  {
    hide ViewFits;
    var after := Drawn(txn, p);
    forall q | q in after.view ensures ViewFits(l, after, q) {
      DrawnFits(l, txn, p, q);
    }
    forall k: DebitKey ensures RowFits(l, after, k) { assert RowFits(l, txn, k); }
  }

  // Giving hours back.

  lemma LoweredHours(rows: DebitTable, k: DebitKey, hours: int, p: PurchaseId)
    requires 0 <= hours <= Row(rows, k)
    ensures HoursOn(Bank.Lowered(rows, k, hours), p) == HoursOn(rows, p) - if p == k.purchase then hours else 0
  {
    hide HoursOn, HoursFor;
    SetRow(rows, k, Row(rows, k) - hours);
    DropRow(rows, k);
  }

  lemma LoweredRows(rows: DebitTable, k: DebitKey, hours: int)
    requires 0 <= hours && PositiveRows(rows)
    ensures var after := Bank.Lowered(rows, k, hours);
            && PositiveRows(after) && after.Keys <= rows.Keys
            && forall c | c != k :: (c in after <==> c in rows) && (c in rows ==> after[c] == rows[c])
  {
  }

  lemma GivenFits(l: Ledger, txn: Txn, b: BookingId, p: PurchaseId, hours: int, q: PurchaseId)
    requires p in txn.view && 0 <= hours <= Row(txn.rows, DebitKey(b, p))
    requires q in txn.view && ViewFits(l, txn, q)
    requires q == p && Spend(l.purchases[p], Change(l, txn, p)).used == 0 ==> Row(txn.rows, DebitKey(b, p)) == 0
    ensures ViewFits(l, Given(txn, b, p, hours), q)
  {
    LoweredHours(txn.rows, DebitKey(b, p), hours, q);
    hide HoursOn, Taken, Bank.Lowered, Row;
  }

  lemma GivingFits(l: Ledger, txn: Txn, b: BookingId, p: PurchaseId, hours: int)
    requires Balanced(l) && TxnFits(l, txn) && b in txn.bookings && 0 <= hours <= Row(txn.rows, DebitKey(b, p))
    ensures TxnFits(l, Given(txn, b, p, hours))
  {
    hide *;
    var after := Given(txn, b, p, hours);
    GivenShape(txn, b, p, hours);
    if p in txn.view {
      NothingToGive(l, txn, b, p);
      FitsMeans(l, txn);
      LoweredRows(txn.rows, DebitKey(b, p), hours);
      forall q | q in after.view ensures ViewFits(l, after, q) {
        ViewIsCommitted(l, txn, q);
        GivenFits(l, txn, b, p, hours, q);
      }
      OneRowLessFits(l, txn, after, DebitKey(b, p));
    }
  }

  lemma GivenShape(txn: Txn, b: BookingId, p: PurchaseId, hours: int)
    ensures var after := Given(txn, b, p, hours);
            && after == txn.(view := after.view, rows := after.rows) && after.view.Keys == txn.view.Keys
            && (p !in txn.view ==> after == txn)
            && (p in txn.view ==> after.rows == Bank.Lowered(txn.rows, DebitKey(b, p), hours))
  {
    hide Bank.Lowered;
  }

  /** Only one row changed, on a purchase the transaction holds, and the views fit. */
  lemma OneRowLessFits(l: Ledger, txn: Txn, after: Txn, k: DebitKey)
    requires TxnFits(l, txn) && after == txn.(view := after.view, rows := after.rows) && after.view.Keys == txn.view.Keys
    requires k.purchase in txn.view
    requires PositiveRows(after.rows) && after.rows.Keys <= txn.rows.Keys
    requires forall c | c != k :: (c in after.rows <==> c in txn.rows) && (c in txn.rows ==> after.rows[c] == txn.rows[c])
    requires forall q | q in after.view :: ViewFits(l, after, q)
    ensures TxnFits(l, after)
  {
    hide ViewFits, PositiveRows;
    forall c: DebitKey ensures RowFits(l, after, c) { assert RowFits(l, txn, c); }
  }

  /** A purchase of which nothing is used has no row to give back. */
  lemma NothingToGive(l: Ledger, txn: Txn, b: BookingId, p: PurchaseId)
    requires Balanced(l) && TxnFits(l, txn) && p in txn.view
    ensures p in l.purchases
    ensures Spend(l.purchases[p], Change(l, txn, p)).used == 0 ==> Row(txn.rows, DebitKey(b, p)) == 0
  {
    ViewIsCommitted(l, txn, p);
    UsedIsDrawn(l, txn, p);
    hide Balanced, TxnFits, Change;
  }

  // Taking a credit out of circulation.

  lemma TakingFits(l: Ledger, txn: Txn, b: BookingId, p: PurchaseId)
    requires Balanced(l) && TxnFits(l, txn) && p in txn.view
    ensures TxnFits(l, CreditTaken(txn, b, p))
  {
    hide *;
    var after := CreditTaken(txn, b, p);
    CreditTakenShape(txn, b, p);
    ViewIsCommitted(l, txn, p);
    UsedIsDrawn(l, txn, p);
    forall q | q in after.view ensures q in txn.view && ViewFits(l, after, q) {
      ViewIsCommitted(l, txn, q);
      TakenViewFits(l, txn, b, p, q);
    }
    SameRowsFit(l, txn, after);
  }

  lemma CreditTakenShape(txn: Txn, b: BookingId, p: PurchaseId)
    requires p in txn.view
    ensures var after := CreditTaken(txn, b, p);
            after == txn.(view := after.view) && after.view.Keys == txn.view.Keys
  {
  }

  lemma TakenViewFits(l: Ledger, txn: Txn, b: BookingId, p: PurchaseId, q: PurchaseId)
    requires p in txn.view && q in txn.view && ViewFits(l, txn, q)
    requires p in l.purchases && Spend(l.purchases[p], Change(l, txn, p)).used >= 0
    ensures q in CreditTaken(txn, b, p).view && ViewFits(l, CreditTaken(txn, b, p), q)
  {
    hide HoursOn;
  }

  /** Only the views changed, and they fit. */
  lemma SameRowsFit(l: Ledger, txn: Txn, after: Txn)
    requires TxnFits(l, txn) && after == txn.(view := after.view) && after.view.Keys == txn.view.Keys
    requires forall q | q in after.view :: ViewFits(l, after, q)
    ensures TxnFits(l, after)
  {
    hide ViewFits;
    forall k: DebitKey ensures RowFits(l, after, k) { assert RowFits(l, txn, k); }
  }

  // Locking a booking.

  lemma BookingLockFits(l: Ledger, txn: Txn, b: BookingId, q: PurchaseId)
    requires b !in txn.bookings && (forall k | k in txn.rows :: k.booking in txn.bookings)
    requires q in txn.view && ViewFits(l, txn, q)
    ensures ViewFits(l, BookingLocked(l, txn, b), q)
  {
    assert txn.rows.Keys !! OnlyOf(l.debits, {b}).Keys;
    HoursOfUnion(txn.rows, OnlyOf(l.debits, {b}), q);
    OnlyOfGrows(l.debits, txn.bookings, b, q);
    hide HoursOn, OnlyOf, Taken;
  }

  lemma BookingLockingFits(l: Ledger, txn: Txn, b: BookingId)
    requires Balanced(l) && TxnFits(l, txn) && b !in txn.bookings
    ensures TxnFits(l, BookingLocked(l, txn, b))
  {
    hide ViewFits, BalancedPurchase;
    var after := BookingLocked(l, txn, b);
    forall q | q in after.view ensures ViewFits(l, after, q) {
      BookingLockFits(l, txn, b, q);
    }
    forall k: DebitKey ensures RowFits(l, after, k) { assert RowFits(l, txn, k); }
  }

  // Writing the draws as rows, or putting them back.

  lemma {:induction false} RecordedHours(rows: DebitTable, b: BookingId, draws: seq<Draw>, p: PurchaseId)
    ensures HoursOn(WithRows(rows, b, draws), p) == HoursOn(rows, p) + Taken(draws, p)
  {
    if draws != [] {
      var init, d := draws[..|draws| - 1], draws[|draws| - 1];
      assert draws == init + [d];
      hide HoursOn;
      RecordedHours(rows, b, init, p);
      TakenAppend(init, [d], p);
      assert Taken([d], p) == if d.purchase == p then d.hours else 0;
      var k := DebitKey(b, d.purchase);
      SetRow(WithRows(rows, b, init), k, Row(WithRows(rows, b, init), k) + d.hours);
    }
  }

  lemma {:induction false} RecordedRows(rows: DebitTable, b: BookingId, draws: seq<Draw>, k: DebitKey)
    requires PositiveRows(rows) && forall d | d in draws :: d.hours > 0
    ensures PositiveRows(WithRows(rows, b, draws))
    ensures k in WithRows(rows, b, draws) && k !in rows ==> k.booking == b && exists d | d in draws :: d.purchase == k.purchase
    ensures k in rows ==> k in WithRows(rows, b, draws)
    ensures k in rows && (forall d | d in draws :: d.purchase != k.purchase) ==> WithRows(rows, b, draws)[k] == rows[k]
  {
    if draws != [] {
      var init, d := draws[..|draws| - 1], draws[|draws| - 1];
      assert d in draws && forall e | e in init :: e in draws;
      RecordedRows(rows, b, init, k);
    }
  }

  lemma RecordedFits(l: Ledger, txn: Txn, q: PurchaseId)
    requires q in txn.view && ViewFits(l, txn, q)
    ensures ViewFits(l, Recorded(txn), q)
  {
    RecordedHours(txn.rows, txn.drawnFor, txn.pending, q);
    hide HoursOn, OnlyOf, WithRows;
  }

  lemma RecordingFits(l: Ledger, txn: Txn)
    requires TxnFits(l, txn)
    ensures TxnFits(l, Recorded(txn))
  {
    hide WithRows, PositiveRows;
    var after := Recorded(txn);
    RecordedRows(txn.rows, txn.drawnFor, txn.pending, DebitKey(0, 0));
    forall q | q in after.view ensures ViewFits(l, after, q) {
      RecordedFits(l, txn, q);
    }
    forall k: DebitKey
      ensures RowFits(l, after, k)
      ensures k in after.rows ==> k.booking in txn.bookings && k.purchase in l.purchases
    {
      assert RowFits(l, txn, k);
      RecordedRows(txn.rows, txn.drawnFor, txn.pending, k);
      if k in after.rows && k !in txn.rows {
        var d :| d in txn.pending && d.purchase == k.purchase;
        assert ViewFits(l, txn, d.purchase);
      }
    }
  }

  lemma UndoneFits(l: Ledger, txn: Txn, q: PurchaseId)
    requires forall d | d in txn.pending :: d.purchase in txn.view && d.hours > 0
    requires q in txn.view && ViewFits(l, txn, q)
    requires Spend(l.purchases[q], Change(l, txn, q)).used == 0 ==> forall d | d in txn.pending :: d.purchase != q
    ensures q in Undone(txn).view && ViewFits(l, Undone(txn), q)
  {
    if forall d | d in txn.pending :: d.purchase != q { TakenOnlyFromDrawn(txn.pending, q); }
    Bank.RestoredBalance(txn.view, txn.pending, q);
    TakenIsNatural(txn.pending, q);
    hide HoursOn, Bank.Restored, OnlyOf;
    assert Taken([], q) == 0;
  }

  lemma ViewIsCommitted(l: Ledger, txn: Txn, q: PurchaseId)
    requires TxnFits(l, txn) && q in txn.view
    ensures q in l.purchases && ViewFits(l, txn, q)
  {
    assert ViewFits(l, txn, q);
  }

  lemma UndoingFits(l: Ledger, txn: Txn)
    requires Balanced(l) && TxnFits(l, txn)
    ensures (forall d | d in txn.pending :: d.purchase in txn.view) && TxnFits(l, Undone(txn))
    ensures Undone(txn).view.Keys == txn.view.Keys
  {
    hide ViewFits, Bank.Restored, Balanced, HoursOn, Without, Change;
    var after := Undone(txn);
    Bank.RestoredKeys(txn.view, txn.pending);
    forall q | q in after.view ensures ViewFits(l, after, q) {
      ViewIsCommitted(l, txn, q);
      UsedIsDrawn(l, txn, q);
      UndoneFits(l, txn, q);
    }
    forall k: DebitKey ensures RowFits(l, after, k) { assert RowFits(l, txn, k); }
  }

  // ---- any statement of one transaction -----------------------------------------------------------

  lemma FinishingFits(l: Ledger, txn: Txn)
    requires Balanced(l) && TxnFits(l, txn)
    ensures TxnFits(l, Finished(txn)) && Finished(txn).view.Keys == txn.view.Keys && Finished(txn).bookings == txn.bookings
  {
    hide *;
    var after := Finished(txn);
    FitsMeans(l, txn);
    FinishedIs(l, txn);
    if txn.todo.Shrinking? && txn.todo.giving != [] && txn.todo.surplus > 0 {
      var b, p := txn.todo.b, txn.todo.giving[|txn.todo.giving| - 1];
      var give := Min(Row(txn.rows, DebitKey(b, p)), txn.todo.surplus);
      RowIsNatural(txn.rows, DebitKey(b, p));
      SmallerOf(Row(txn.rows, DebitKey(b, p)), txn.todo.surplus);
      GivingFits(l, txn, b, p, give);
      GivenShape(txn, b, p, give);
      TodoDoesNotMatter(l, Given(txn, b, p, give), after);
    } else {
      TodoDoesNotMatter(l, txn, after);
    }
  }

  lemma SmallerOf(a: int, b: int)
    requires a >= 0 && b > 0
    ensures 0 <= Min(a, b) <= a
  {
  }

  lemma FinishedIs(l: Ledger, txn: Txn)
    requires Works(l, txn)
    ensures var after := Finished(txn);
            && Works(l, after)
            && (txn.todo.Shrinking? ==> txn.todo.b in txn.bookings)
            && if txn.todo.Shrinking? && txn.todo.giving != [] && txn.todo.surplus > 0 then
                 var b, p := txn.todo.b, txn.todo.giving[|txn.todo.giving| - 1];
                 after == Given(txn, b, p, Min(Row(txn.rows, DebitKey(b, p)), txn.todo.surplus)).(todo := after.todo)
               else after == txn.(todo := after.todo, wants := after.wants)
  {
    hide Bank.Lowered, Row, Min;
  }

  /** What is under way, and what is still wanted, is no part of the books. */
  lemma TodoDoesNotMatter(l: Ledger, txn: Txn, after: Txn)
    requires TxnFits(l, txn) && Works(l, after)
    requires after == txn.(wants := after.wants, todo := after.todo, operations := after.operations)
    ensures TxnFits(l, after)
  {
    forall q | q in after.view ensures ViewFits(l, after, q) { assert ViewFits(l, txn, q); }
    forall k: DebitKey ensures RowFits(l, after, k) { assert RowFits(l, txn, k); }
  }

  /** The transaction with its next lock, before it does anything under it. */
  function Ready(l: Ledger, txn: Txn): Txn
    requires txn.wants != [] && txn.wants[0] in l.purchases
  {
    WithLock(l, txn, txn.wants[0]).(wants := txn.wants[1..])
  }

  lemma ReadyFits(l: Ledger, txn: Txn)
    requires Balanced(l) && TxnFits(l, txn) && txn.wants != [] && txn.wants[0] in l.purchases
    ensures var ready := Ready(l, txn);
            && TxnFits(l, ready) && txn.wants[0] in ready.view && ready.view.Keys == txn.view.Keys + {txn.wants[0]}
            && ready.bookings == txn.bookings && ready.rows == txn.rows && ready.todo == txn.todo
            && (txn.todo.Releasing? ==> txn.todo.b in txn.bookings) && PositiveRows(txn.rows)
  {
    LockingFits(l, txn, txn.wants[0]);
    FitsMeans(l, txn);
    hide Balanced, TxnFits, PositiveRows;
    FitsMeans(l, WithLock(l, txn, txn.wants[0]));
    TodoDoesNotMatter(l, WithLock(l, txn, txn.wants[0]), Ready(l, txn));
  }

  lemma FitsMeans(l: Ledger, txn: Txn)
    requires TxnFits(l, txn)
    ensures Works(l, txn) && PositiveRows(txn.rows) && (txn.todo.Releasing? ==> txn.todo.b in txn.bookings)
  {
    hide ViewFits, RowFits;
  }

  lemma NextLockFits(l: Ledger, txn: Txn)
    requires Balanced(l) && TxnFits(l, txn) && !txn.todo.Idle? && !NeedsNoLock(txn) && txn.wants[0] in l.purchases
    ensures var after := LockedNext(l, txn);
            && TxnFits(l, after) && after.bookings == txn.bookings
            && after.view.Keys == txn.view.Keys + {txn.wants[0]}
  {
    hide Balanced, TxnFits, Bank.Lowered, PositiveRows, WithLock;
    var p, ready := txn.wants[0], Ready(l, txn);
    ReadyFits(l, txn);
    match txn.todo
    case Walking(_, _, _) =>
      DrawingFits(l, ready, p);
    case Releasing(b) =>
      RowIsNatural(txn.rows, DebitKey(b, p));
      GivingFits(l, ready, b, p, Row(txn.rows, DebitKey(b, p)));
    case Reversing(b) =>
      TakingFits(l, ready, b, p);
    case Shrinking(_, _, _) =>
  }

  lemma RowIsNatural(rows: DebitTable, k: DebitKey)
    requires PositiveRows(rows)
    ensures Row(rows, k) >= 0
  {
  }

  /** What a step may do to its own transaction's locks: keep them all, and take
      only ones nobody else holds. */
  lemma AdvancingFits(s: System, t: TxnId, step: Step)
    requires Safe(s) && t in s.txns && Advanced(s, t, step).Some?
    ensures var txn, after := s.txns[t], Advanced(s, t, step).value;
            && TxnFits(s.committed, after)
            && txn.view.Keys <= after.view.Keys && txn.bookings <= after.bookings
            && (forall p | p in after.view && p !in txn.view :: PurchaseFree(s, t, p))
            && (forall b | b in after.bookings && b !in txn.bookings :: BookingFree(s, t, b))
  {
    hide *;
    var l, txn, after := s.committed, s.txns[t], Advanced(s, t, step).value;
    SafeMeans(s, t);
    if IsStart(step) {
      StartedIs(s, t, step);
      StartingFits(l, txn, after);
    } else if step.GoOn? {
      WentOn(s, t);
      if NeedsNoLock(txn) {
        FinishingFits(l, txn);
      } else {
        NextLockFits(l, txn);
      }
    } else {
      OtherStepIs(s, t, step);
      if step.LockBooking? {
        BookingLockingFits(l, txn, step.b);
      } else if step.UndoDraws? {
        UndoingFits(l, txn);
      } else {
        RecordingFits(l, txn);
      }
    }
  }

  lemma SafeMeans(s: System, t: TxnId)
    requires Safe(s) && t in s.txns
    ensures Balanced(s.committed) && TxnFits(s.committed, s.txns[t])
  {
    hide Balanced, TxnFits;
  }

  predicate IsStart(step: Step) {
    step.StartWalk? || step.StartRelease? || step.StartShrink? || step.StartReverse?
  }

  lemma StartedIs(s: System, t: TxnId, step: Step)
    requires t in s.txns && IsStart(step) && Advanced(s, t, step).Some?
    ensures var txn, after := s.txns[t], Advanced(s, t, step).value;
            && txn.pending == [] && Works(s.committed, after)
            && after == txn.(wants := after.wants, todo := after.todo, drawnFor := after.drawnFor, operations := after.operations)
  {
    hide BankOrder, RowOrder, Visible;
  }

  lemma WentOn(s: System, t: TxnId)
    requires t in s.txns && Advanced(s, t, GoOn).Some?
    ensures var l, txn, after := s.committed, s.txns[t], Advanced(s, t, GoOn).value;
            && !txn.todo.Idle?
            && if NeedsNoLock(txn) then after == Finished(txn)
               else txn.wants != [] && txn.wants[0] in l.purchases && PurchaseFree(s, t, txn.wants[0]) && after == LockedNext(l, txn)
  {
    hide Finished, LockedNext, PurchaseFree;
  }

  /** A booking locked, draws undone, or draws written as rows. */
  lemma OtherStepIs(s: System, t: TxnId, step: Step)
    requires t in s.txns && !IsStart(step) && !step.GoOn? && Advanced(s, t, step).Some?
    ensures var l, txn, after := s.committed, s.txns[t], Advanced(s, t, step).value;
            && (step.LockBooking? ==>
                  step.b !in txn.bookings && BookingFree(s, t, step.b) && after == BookingLocked(l, txn, step.b)
                  && after.view == txn.view && after.bookings == txn.bookings + {step.b})
            && (step.UndoDraws? ==>
                  (forall d | d in txn.pending :: d.purchase in txn.view) && after == Undone(txn) && after.bookings == txn.bookings)
            && (!step.LockBooking? && !step.UndoDraws? ==>
                  after == Recorded(txn) && after.view == txn.view && after.bookings == txn.bookings)
  {
    hide BookingFree, WithRows, Bank.Restored, OnlyOf;
  }

  lemma StartingFits(l: Ledger, txn: Txn, after: Txn)
    requires TxnFits(l, txn) && txn.pending == [] && Works(l, after)
    requires after == txn.(wants := after.wants, todo := after.todo, drawnFor := after.drawnFor, operations := after.operations)
    ensures TxnFits(l, after)
  {
    forall q | q in after.view ensures ViewFits(l, after, q) { assert ViewFits(l, txn, q); }
    forall k: DebitKey ensures RowFits(l, after, k) { assert RowFits(l, txn, k); }
  }

  // ---- committing ------------------------------------------------------------------------------------

  /** Hours drawn from `p` once the transaction's rows are the committed ones. */
  lemma CommittedHours(l: Ledger, txn: Txn, p: PurchaseId)
    requires TxnFits(l, txn) && txn.pending == []
    ensures HoursOn(Without(l.debits, txn.bookings) + txn.rows, p) == HoursOn(l.debits, p) + Change(l, txn, p)
  {
    var outside := Without(l.debits, txn.bookings);
    assert forall k | k in txn.rows :: k !in outside;
    SplitRows(l.debits, txn.bookings, p);
    HoursOfUnion(outside, txn.rows, p);
    hide HoursOn;
    assert Taken([], p) == 0;
  }

  /** The ledger after a commit: every purchase moved by what its rows moved by,
      and some unspent credits are taken out of circulation. */
  ghost predicate Settles(l: Ledger, after: Ledger) {
    && after.purchases.Keys == l.purchases.Keys
    && forall p | p in l.purchases :: SettlesPurchase(l, after, p)
  }

  ghost predicate SettlesPurchase(l: Ledger, after: Ledger, p: PurchaseId)
    requires p in l.purchases && p in after.purchases
  {
    var spent := Spend(l.purchases[p], HoursOn(after.debits, p) - HoursOn(l.debits, p));
    spent.remaining >= 0 && (after.purchases[p] == spent || TakenOut(after.purchases[p], spent))
  }

  lemma CommittedPurchase(l: Ledger, txn: Txn, p: PurchaseId)
    requires Balanced(l) && TxnFits(l, txn) && txn.pending == [] && p in l.purchases
    requires p in Committed(l, txn).purchases
    ensures SettlesPurchase(l, Committed(l, txn), p)
  {
    hide *;
    CommittedHours(l, txn, p);
    CommittedIs(l, txn, p);
    if p in txn.view {
      ViewIsCommitted(l, txn, p);
      ViewSettles(l, txn, p);
    } else {
      NewLockFits(l, txn, p);
      UntouchedSettles(l, txn, p);
    }
  }

  lemma CommittedIs(l: Ledger, txn: Txn, p: PurchaseId)
    ensures Committed(l, txn).debits == Without(l.debits, txn.bookings) + txn.rows
    ensures p in txn.view ==> p in Committed(l, txn).purchases && Committed(l, txn).purchases[p] == txn.view[p]
    ensures p in l.purchases && p !in txn.view ==> p in Committed(l, txn).purchases && Committed(l, txn).purchases[p] == l.purchases[p]
  {
  }

  lemma ViewSettles(l: Ledger, txn: Txn, p: PurchaseId)
    requires p in txn.view && p in l.purchases && ViewFits(l, txn, p) && p in Committed(l, txn).purchases
    requires HoursOn(Committed(l, txn).debits, p) == HoursOn(l.debits, p) + Change(l, txn, p)
    ensures SettlesPurchase(l, Committed(l, txn), p)
  {
    CommittedIs(l, txn, p);
    hide HoursOn, Change, Committed;
  }

  lemma UntouchedSettles(l: Ledger, txn: Txn, p: PurchaseId)
    requires p !in txn.view && p in l.purchases && Change(l, txn, p) == 0 && l.purchases[p].remaining >= 0
    requires p in Committed(l, txn).purchases
    requires HoursOn(Committed(l, txn).debits, p) == HoursOn(l.debits, p) + Change(l, txn, p)
    ensures SettlesPurchase(l, Committed(l, txn), p)
  {
    CommittedIs(l, txn, p);
    hide HoursOn, Change, Committed;
  }

  /** A commit moves every purchase by exactly what its rows moved by, takes out
      only credits nobody has spent, and overdraws nobody. */
  lemma CommittingKeepsBalance(l: Ledger, txn: Txn)
    requires Balanced(l) && TxnFits(l, txn) && txn.pending == []
    ensures Settles(l, Committed(l, txn))
    ensures Balanced(Committed(l, txn))
  {
    hide *;
    var after := Committed(l, txn);
    CommittedShape(l, txn);
    forall p | p in l.purchases ensures SettlesPurchase(l, after, p) {
      CommittedPurchase(l, txn, p);
    }
    SettlingKeepsBalance(l, after);
  }

  lemma SettlingKeepsBalance(l: Ledger, after: Ledger)
    requires Balanced(l) && PositiveRows(after.debits) && after.purchases.Keys == l.purchases.Keys
    requires forall k | k in after.debits :: k.purchase in l.purchases
    requires forall p | p in l.purchases :: SettlesPurchase(l, after, p)
    ensures Settles(l, after) && Balanced(after)
  {
    hide HoursOn, BalancedPurchase, SettlesPurchase;
    forall p | p in after.purchases ensures BalancedPurchase(after, p) {
      SettledPurchaseBalances(l, after, p);
    }
  }

  lemma SettledPurchaseBalances(l: Ledger, after: Ledger, p: PurchaseId)
    requires p in l.purchases && p in after.purchases && BalancedPurchase(l, p) && PositiveRows(after.debits)
    requires SettlesPurchase(l, after, p)
    ensures BalancedPurchase(after, p)
  {
    NaturalRows(after.debits, p);
    hide HoursOn;
  }

  lemma CommittedShape(l: Ledger, txn: Txn)
    requires Balanced(l) && TxnFits(l, txn)
    ensures var after := Committed(l, txn);
            && after.purchases.Keys == l.purchases.Keys && PositiveRows(after.debits)
            && forall k | k in after.debits :: k.purchase in l.purchases
  {
    forall p | p in txn.view ensures p in l.purchases { assert ViewFits(l, txn, p); }
  }

  /** Nobody else's transaction notices a commit. */
  lemma OthersStillFit(l: Ledger, txn: Txn, other: Txn)
    requires TxnFits(l, txn) && TxnFits(l, other) && Apart(txn, other)
    ensures TxnFits(Committed(l, txn), other)
  {
    OthersPurchases(l, txn, other);
    OthersRows(l, txn, other);
    hide *;
    var after := Committed(l, txn);
    forall q | q in other.view ensures ViewFits(after, other, q) {
      ViewIsCommitted(l, other, q);
      SameViewFits(l, after, other, q);
    }
    forall k: DebitKey ensures RowFits(after, other, k) {
      RowIsCommitted(l, other, k);
      SameRowFits(l, after, other, k);
    }
    StillFits(l, after, other);
  }

  lemma OthersPurchases(l: Ledger, txn: Txn, other: Txn)
    requires Apart(txn, other)
    ensures l.purchases.Keys <= Committed(l, txn).purchases.Keys
    ensures forall p | p in l.purchases && p in other.view :: Committed(l, txn).purchases[p] == l.purchases[p]
  {
  }

  /** The committed rows of the other transaction's bookings are the same. */
  lemma OthersRows(l: Ledger, txn: Txn, other: Txn)
    requires TxnFits(l, txn) && Apart(txn, other)
    ensures var after := Committed(l, txn);
            && OnlyOf(after.debits, other.bookings) == OnlyOf(l.debits, other.bookings)
            && forall k: DebitKey | k.booking in other.bookings ::
                 (k in after.debits <==> k in l.debits) && (k in l.debits ==> after.debits[k] == l.debits[k])
  {
    hide ViewFits, RowFits, Works;
    assert forall k | k in txn.rows :: k.booking !in other.bookings;
  }

  lemma RowIsCommitted(l: Ledger, txn: Txn, k: DebitKey)
    requires TxnFits(l, txn)
    ensures RowFits(l, txn, k) && (k in txn.rows ==> k.booking in txn.bookings)
  {
    hide ViewFits;
  }

  lemma SameViewFits(l: Ledger, after: Ledger, other: Txn, q: PurchaseId)
    requires q in other.view && q in l.purchases && ViewFits(l, other, q)
    requires q in after.purchases && after.purchases[q] == l.purchases[q]
    requires OnlyOf(after.debits, other.bookings) == OnlyOf(l.debits, other.bookings)
    ensures ViewFits(after, other, q)
  {
    hide HoursOn, OnlyOf, Taken;
  }

  lemma SameRowFits(l: Ledger, after: Ledger, other: Txn, k: DebitKey)
    requires RowFits(l, other, k) && (k in other.rows ==> k.booking in other.bookings)
    requires k.booking in other.bookings ==> (k in after.debits <==> k in l.debits) && (k in l.debits ==> after.debits[k] == l.debits[k])
    ensures RowFits(after, other, k)
  {
  }

  lemma StillFits(l: Ledger, after: Ledger, other: Txn)
    requires TxnFits(l, other) && l.purchases.Keys <= after.purchases.Keys
    requires forall q | q in other.view :: ViewFits(after, other, q)
    requires forall k: DebitKey :: RowFits(after, other, k)
    ensures TxnFits(after, other)
  {
    hide ViewFits, RowFits, PositiveRows;
  }

  // ---- runs ------------------------------------------------------------------------------------------

  lemma NewTxnFits(l: Ledger)
    ensures TxnFits(l, NewTxn)
  {
  }

  lemma ReplacingStaysSafe(s: System, t: TxnId, after: Txn)
    requires Safe(s) && t in s.txns && TxnFits(s.committed, after)
    requires forall p | p in after.view && p !in s.txns[t].view :: PurchaseFree(s, t, p)
    requires forall b | b in after.bookings && b !in s.txns[t].bookings :: BookingFree(s, t, b)
    ensures Safe(s.(txns := s.txns[t := after]))
  {
    hide Balanced, TxnFits;
    var txns := s.txns[t := after];
    forall a, b | a in txns && b in txns && a != b ensures Apart(txns[a], txns[b]) {
      if a == t { assert Apart(s.txns[t], s.txns[b]); }
      else if b == t { assert Apart(s.txns[a], s.txns[t]); }
      else { assert Apart(s.txns[a], s.txns[b]); }
    }
  }

  lemma CommitStaysSafe(s: System, t: TxnId)
    requires Safe(s) && t in s.txns && s.txns[t].pending == []
    ensures Safe(System(Committed(s.committed, s.txns[t]), s.txns - {t}))
  {
    hide Balanced, TxnFits, Committed;
    CommittingKeepsBalance(s.committed, s.txns[t]);
    var txns := s.txns - {t};
    forall u | u in txns ensures TxnFits(Committed(s.committed, s.txns[t]), txns[u]) {
      OthersStillFit(s.committed, s.txns[t], s.txns[u]);
    }
  }

  lemma NextIsSafe(s: System, a: Action)
    requires Safe(s)
    ensures Safe(Next(s, a))
  {
    hide Balanced, TxnFits, Advanced, Committed, PurchaseFree, BookingFree;
    if a.step.Begin? {
      NewTxnFits(s.committed);
    } else if a.txn in s.txns {
      if a.step.Commit? {
        if s.txns[a.txn].pending == [] {
          CommitStaysSafe(s, a.txn);
        }
      } else if !a.step.Rollback? && Advanced(s, a.txn, a.step).Some? {
        AdvancingFits(s, a.txn, a.step);
        ReplacingStaysSafe(s, a.txn, Advanced(s, a.txn, a.step).value);
      }
    }
  }

  /** Nothing is drawn from purchase `p`: no row of the transaction's lies on it,
      and no draw of its still to be written. */
  ghost predicate Untouched(txn: Txn, p: PurchaseId) {
    (forall k | k in txn.rows :: k.purchase != p) && forall d | d in txn.pending :: d.purchase != p
  }

  /** Under any interleaving of walks, releases, shrinks, reversals of credits,
      commits and rollbacks, started from balanced books: the committed books
      stay balanced, so no purchase is overdrawn and every hour used is held by
      exactly one booking's row; no transaction ever sees a negative balance; no
      lock is held twice; and nothing is ever drawn from a credit that was taken
      out of circulation, neither committed nor under way. */
  lemma {:induction false} EveryInterleavingIsSafe(l: Ledger, actions: seq<Action>)
    requires Balanced(l)
    ensures var s := After(System(l, map[]), actions);
            && Balanced(s.committed)
            && (forall t, p | t in s.txns && p in s.txns[t].view :: s.txns[t].view[p].remaining >= 0)
            && (forall t, u | t in s.txns && u in s.txns && t != u :: s.txns[t].view.Keys !! s.txns[u].view.Keys)
            && (forall k | k in s.committed.debits ::
                  k.purchase in s.committed.purchases && !WrittenOff(s.committed.purchases[k.purchase]))
            && (forall t, p | t in s.txns && p in s.txns[t].view && WrittenOff(s.txns[t].view[p]) :: Untouched(s.txns[t], p))
  {
    RunIsSafe(System(l, map[]), actions);
    var s := After(System(l, map[]), actions);
    hide After;
    forall t, p | t in s.txns && p in s.txns[t].view
      ensures s.txns[t].view[p].remaining >= 0
      ensures WrittenOff(s.txns[t].view[p]) ==> Untouched(s.txns[t], p)
    {
      NothingOnTakenCredits(s.committed, s.txns[t], p);
    }
    NoRowsOnTakenCredits(s.committed);
    hide Balanced, TxnFits;
    forall t, u | t in s.txns && u in s.txns && t != u ensures s.txns[t].view.Keys !! s.txns[u].view.Keys {
      assert Apart(s.txns[t], s.txns[u]);
    }
  }

  lemma NothingOnTakenCredits(l: Ledger, txn: Txn, p: PurchaseId)
    requires Balanced(l) && TxnFits(l, txn) && p in txn.view
    ensures txn.view[p].remaining >= 0 && (WrittenOff(txn.view[p]) ==> Untouched(txn, p))
  {
    ViewIsCommitted(l, txn, p);
    UsedIsDrawn(l, txn, p);
    hide Balanced, TxnFits, HoursOn, Without;
  }

  lemma NoRowsOnTakenCredits(l: Ledger)
    requires Balanced(l)
    ensures forall k | k in l.debits :: k.purchase in l.purchases && !WrittenOff(l.purchases[k.purchase])
  {
    hide HoursOn;
    forall k | k in l.debits ensures !WrittenOff(l.purchases[k.purchase]) {
      assert BalancedPurchase(l, k.purchase);
      NaturalRows(l.debits, k.purchase);
    }
  }

  lemma {:induction false} RunIsSafe(s: System, actions: seq<Action>)
    requires Safe(s)
    ensures Safe(After(s, actions))
    decreases |actions|
  {
    hide Safe, Next;
    if actions != [] {
      NextIsSafe(s, actions[0]);
      RunIsSafe(Next(s, actions[0]), actions[1..]);
    }
  }

  // ---- no wait cycle ----------------------------------------------------------------------------------

  /** `p` is locked before `q` by every single operation. */
  ghost predicate Earlier(purchases: PurchaseTable, p: PurchaseId, q: PurchaseId) {
    && p in purchases && q in purchases
    && (purchases[p].expires < purchases[q].expires || (purchases[p].expires == purchases[q].expires && p < q))
  }

  ghost predicate Ascending(purchases: PurchaseTable, order: seq<PurchaseId>) {
    forall i, j | 0 <= i < j < |order| :: Earlier(purchases, order[i], order[j])
  }

  /** A transaction of one operation still wants only purchases later than all it holds. */
  ghost predicate LocksInOrder(purchases: PurchaseTable, txn: Txn) {
    && (txn.operations == 0 ==> txn.view == map[] && txn.wants == [])
    && (txn.operations <= 1 ==>
          && Ascending(purchases, txn.wants)
          && forall p, i | p in txn.view && 0 <= i < |txn.wants| :: Earlier(purchases, p, txn.wants[i]))
  }

  ghost predicate AllInOrder(s: System) {
    forall t | t in s.txns :: LocksInOrder(s.committed.purchases, s.txns[t])
  }

  lemma OrderedIsAscending(purchases: PurchaseTable, ids: set<PurchaseId>)
    requires ids <= purchases.Keys
    ensures Ascending(purchases, Ordered(ids, Expiries(purchases)))
  {
    var order := Ordered(ids, Expiries(purchases));
    forall i, j | 0 <= i < j < |order| ensures Earlier(purchases, order[i], order[j]) {
      assert order[i] in order && order[j] in order;
      assert AtMost(Expiries(purchases), order[i], order[j]);
    }
  }

  lemma StartsInOrder(l: Ledger, txn: Txn, after: Txn, ids: set<PurchaseId>)
    requires LocksInOrder(l.purchases, txn) && after.view == txn.view && after.operations == txn.operations + 1
    requires ids <= l.purchases.Keys
    requires txn.view == map[] ==> after.wants == Ordered(ids, Expiries(l.purchases))
    ensures LocksInOrder(l.purchases, after)
  {
    OrderedIsAscending(l.purchases, ids);
  }

  lemma OneWantIsInOrder(l: Ledger, txn: Txn, after: Txn)
    requires LocksInOrder(l.purchases, txn) && after.view == txn.view && after.operations == txn.operations + 1
    requires |after.wants| == 1
    ensures LocksInOrder(l.purchases, after)
  {
    hide Earlier;
  }

  lemma LockingGoesOn(l: Ledger, txn: Txn, after: Txn)
    requires LocksInOrder(l.purchases, txn) && txn.wants != []
    requires after.wants == txn.wants[1..] && after.view.Keys == txn.view.Keys + {txn.wants[0]}
    requires after.operations == txn.operations
    ensures LocksInOrder(l.purchases, after)
  {
    hide Earlier;
    if txn.operations <= 1 {
      forall i, j | 0 <= i < j < |after.wants| ensures Earlier(l.purchases, after.wants[i], after.wants[j]) {
        assert Earlier(l.purchases, txn.wants[i + 1], txn.wants[j + 1]);
      }
      forall p, i | p in after.view && 0 <= i < |after.wants| ensures Earlier(l.purchases, p, after.wants[i]) {
        assert after.wants[i] == txn.wants[i + 1];
      }
    }
  }

  /** Keeping the locks, and wanting no more than before. */
  lemma StayingInOrder(l: Ledger, txn: Txn, after: Txn)
    requires LocksInOrder(l.purchases, txn) && after.view.Keys == txn.view.Keys && after.operations == txn.operations
    requires after.wants == txn.wants || after.wants == []
    ensures LocksInOrder(l.purchases, after)
  {
    hide Earlier;
  }

  lemma FinishedShape(l: Ledger, txn: Txn)
    ensures Finished(txn).view.Keys == txn.view.Keys && Finished(txn).operations == txn.operations
    ensures Finished(txn).wants == txn.wants || Finished(txn).wants == []
  {
    hide Bank.Lowered;
  }

  lemma LockedShape(l: Ledger, txn: Txn)
    requires txn.wants != [] && txn.wants[0] in l.purchases
    ensures var after := LockedNext(l, txn);
            && after.wants == txn.wants[1..] && after.view.Keys == txn.view.Keys + {txn.wants[0]}
            && after.operations == txn.operations
  {
    hide Bank.Lowered;
  }

  /** The purchases an operation is about to lock, as the set it sorts. */
  ghost function Targets(l: Ledger, txn: Txn, step: Step): set<PurchaseId> {
    match step
    case StartWalk(_, user, org, _, now, _) => Candidates(l.purchases, user, org, now)
    case StartRelease(b) => PurchasesOf(txn.rows, b)
    case StartShrink(b, _) => PurchasesOf(txn.rows, b)
    case _ => {}
  }

  /** What a step changes of the locks a transaction holds and wants. */
  lemma AdvancedShape(s: System, t: TxnId, step: Step)
    requires t in s.txns && Advanced(s, t, step).Some?
    ensures var l, txn, after := s.committed, s.txns[t], Advanced(s, t, step).value;
            if step.StartReverse? then after.view == txn.view && after.operations == txn.operations + 1 && after.wants == [step.credit]
            else if step.StartWalk? || step.StartRelease? || step.StartShrink? then
              && after.view == txn.view && after.operations == txn.operations + 1
              && Targets(l, txn, step) <= l.purchases.Keys
              && (txn.view == map[] ==> after.wants == Ordered(Targets(l, txn, step), Expiries(l.purchases)))
            else if step.GoOn? then
              if NeedsNoLock(txn) then after == Finished(txn)
              else txn.wants != [] && txn.wants[0] in l.purchases && after == LockedNext(l, txn)
            else if step.UndoDraws? then (forall d | d in txn.pending :: d.purchase in txn.view) && after == Undone(txn)
            else after.view == txn.view && after.wants == txn.wants && after.operations == txn.operations
  {
    hide Finished, LockedNext, PurchaseFree, BookingFree, Bank.Restored;
    if s.txns[t].view == map[] {
      assert Visible(s.committed, s.txns[t]) == s.committed.purchases;
    }
  }

  lemma AdvancingInOrder(s: System, t: TxnId, step: Step)
    requires Safe(s) && AllInOrder(s) && t in s.txns && Advanced(s, t, step).Some?
    ensures LocksInOrder(s.committed.purchases, Advanced(s, t, step).value)
  {
    hide *;
    var l, txn, after := s.committed, s.txns[t], Advanced(s, t, step).value;
    OneInOrder(s, t);
    AdvancedShape(s, t, step);
    if step.StartReverse? {
      OneWantIsInOrder(l, txn, after);
    } else if step.StartWalk? || step.StartRelease? || step.StartShrink? {
      StartsInOrder(l, txn, after, Targets(l, txn, step));
    } else if step.GoOn? {
      if NeedsNoLock(txn) {
        FinishedShape(l, txn);
        StayingInOrder(l, txn, after);
      } else {
        LockedShape(l, txn);
        LockingGoesOn(l, txn, after);
      }
    } else if step.UndoDraws? {
      UndoneShape(txn);
      StayingInOrder(l, txn, after);
    } else {
      StayingInOrder(l, txn, after);
    }
  }

  lemma OneInOrder(s: System, t: TxnId)
    requires AllInOrder(s) && t in s.txns
    ensures LocksInOrder(s.committed.purchases, s.txns[t])
  {
    hide LocksInOrder;
  }

  lemma UndoneShape(txn: Txn)
    requires forall d | d in txn.pending :: d.purchase in txn.view
    ensures Undone(txn).view.Keys == txn.view.Keys && Undone(txn).wants == txn.wants
    ensures Undone(txn).operations == txn.operations
  {
    Bank.RestoredKeys(txn.view, txn.pending);
  }

  lemma CommitKeepsOrder(s: System, t: TxnId, txn: Txn)
    requires Safe(s) && t in s.txns && s.txns[t].pending == [] && LocksInOrder(s.committed.purchases, txn)
    ensures LocksInOrder(Committed(s.committed, s.txns[t]).purchases, txn)
  {
    var l := s.committed;
    CommittingKeepsBalance(l, s.txns[t]);
    SettlingKeepsOrder(l, Committed(l, s.txns[t]));
    hide Committed, Safe, Settles, Earlier;
  }

  lemma SettlingKeepsOrder(l: Ledger, after: Ledger)
    requires Settles(l, after)
    ensures forall p, q :: Earlier(l.purchases, p, q) ==> Earlier(after.purchases, p, q)
  {
    hide HoursOn;
    forall p | p in l.purchases ensures after.purchases[p].expires == l.purchases[p].expires {
      assert SettlesPurchase(l, after, p);
    }
  }

  lemma NextIsInOrder(s: System, a: Action)
    requires Safe(s) && AllInOrder(s)
    ensures AllInOrder(Next(s, a))
  {
    hide Safe, Advanced, LocksInOrder, Committed;
    if a.step.Begin? {
      NewTxnIsInOrder(s.committed.purchases);
    } else if a.txn in s.txns {
      if a.step.Commit? {
        forall u | u in s.txns && s.txns[a.txn].pending == []
          ensures LocksInOrder(Committed(s.committed, s.txns[a.txn]).purchases, s.txns[u])
        {
          CommitKeepsOrder(s, a.txn, s.txns[u]);
        }
      } else if !a.step.Rollback? && Advanced(s, a.txn, a.step).Some? {
        AdvancingInOrder(s, a.txn, a.step);
      }
    }
  }

  lemma NewTxnIsInOrder(purchases: PurchaseTable)
    ensures LocksInOrder(purchases, NewTxn)
  {
  }

  lemma {:induction false} RunIsInOrder(s: System, actions: seq<Action>)
    requires Safe(s) && AllInOrder(s)
    ensures Safe(After(s, actions)) && AllInOrder(After(s, actions))
    decreases |actions|
  {
    hide Safe, AllInOrder, Next;
    if actions != [] {
      NextIsSafe(s, actions[0]);
      NextIsInOrder(s, actions[0]);
      RunIsInOrder(Next(s, actions[0]), actions[1..]);
    }
  }

  /** `t` needs a lock `u` holds: the booking it asks for, or its next purchase. */
  ghost predicate WaitsFor(s: System, asks: map<TxnId, BookingId>, t: TxnId, u: TxnId) {
    && t in s.txns && u in s.txns
    && if t in asks then asks[t] in s.txns[u].bookings
       else s.txns[t].wants != [] && s.txns[t].wants[0] in s.txns[u].view
  }

  /** A transaction of a single operation: a booking asked for before anything
      else is locked, then at most one walk, release, shrink or reversal. */
  ghost predicate SingleOperation(s: System, asks: map<TxnId, BookingId>, t: TxnId) {
    && t in s.txns && s.txns[t].operations <= 1
    && (t in asks ==> s.txns[t].view == map[] && s.txns[t].bookings == {})
  }

  ghost predicate Circle(s: System, asks: map<TxnId, BookingId>, ts: seq<TxnId>) {
    forall i, j | 0 <= i < |ts| && j == (if i == |ts| - 1 then 0 else i + 1) :: WaitsFor(s, asks, ts[i], ts[j])
  }

  predicate WantsPurchase(s: System, asks: map<TxnId, BookingId>, t: TxnId) {
    t !in asks && t in s.txns && s.txns[t].wants != []
  }

  function FirstWant(s: System, t: TxnId): PurchaseId {
    if t in s.txns && s.txns[t].wants != [] then s.txns[t].wants[0] else 0
  }

  /** One link of a circle: who waits for a purchase wants an earlier one than
      whoever holds it wants. */
  lemma LinksAscend(s: System, asks: map<TxnId, BookingId>, t: TxnId, u: TxnId, v: TxnId)
    requires AllInOrder(s) && SingleOperation(s, asks, t) && SingleOperation(s, asks, u)
    requires WaitsFor(s, asks, t, u) && WaitsFor(s, asks, u, v)
    ensures WantsPurchase(s, asks, u)
    ensures WantsPurchase(s, asks, t) ==> Earlier(s.committed.purchases, FirstWant(s, t), FirstWant(s, u))
  {
    OneInOrder(s, u);
  }

  lemma {:induction false} CirclesAscend(s: System, asks: map<TxnId, BookingId>, ts: seq<TxnId>, k: nat)
    requires AllInOrder(s) && Circle(s, asks, ts) && k < |ts|
    requires forall i | 0 <= i < |ts| :: SingleOperation(s, asks, ts[i])
    ensures WantsPurchase(s, asks, ts[k])
    ensures k > 0 ==> Earlier(s.committed.purchases, FirstWant(s, ts[0]), FirstWant(s, ts[k]))
  {
    var n := |ts|;
    var before, after := if k == 0 then n - 1 else k - 1, if k == n - 1 then 0 else k + 1;
    assert WaitsFor(s, asks, ts[before], ts[k]) && WaitsFor(s, asks, ts[k], ts[after]);
    hide AllInOrder, WaitsFor, SingleOperation, WantsPurchase, FirstWant;
    LinksAscend(s, asks, ts[before], ts[k], ts[after]);
    if k > 0 {
      CirclesAscend(s, asks, ts, k - 1);
    }
  }

  /** Transactions that each run one walk, release, shrink or reversal never wait for each
      other in a circle, whatever else is going on. */
  lemma NoWaitCycle(l: Ledger, actions: seq<Action>, asks: map<TxnId, BookingId>, ts: seq<TxnId>)
    requires Balanced(l) && ts != []
    requires var s := After(System(l, map[]), actions);
             forall i | 0 <= i < |ts| :: SingleOperation(s, asks, ts[i])
    ensures !Circle(After(System(l, map[]), actions), asks, ts)
  {
    var s := After(System(l, map[]), actions);
    RunIsInOrder(System(l, map[]), actions);
    hide After, AllInOrder, Balanced, Safe;
    if Circle(s, asks, ts) {
      var n := |ts|;
      CirclesAscend(s, asks, ts, 0);
      CirclesAscend(s, asks, ts, n - 1);
      assert WaitsFor(s, asks, ts[n - 1], ts[0]);
      assert WaitsFor(s, asks, ts[0], ts[if n == 1 then 0 else 1]);
      LinksAscend(s, asks, ts[n - 1], ts[0], ts[if n == 1 then 0 else 1]);
    }
  }

  // ---- a walk nobody interrupts -------------------------------------------------------------------------

  /** The walk under way taken to its end, with every lock free and nothing
      committed in between. */
  function WalkedAlone(l: Ledger, txn: Txn): Txn
    requires txn.todo.Walking? && forall p | p in txn.wants :: p in l.purchases
    ensures WalkedAlone(l, txn).todo.Walking?
    decreases |txn.wants|
  {
    if NeedsNoLock(txn) then txn
    else
      assert txn.wants[0] in txn.wants && forall p | p in txn.wants[1..] :: p in txn.wants;
      WalkedAlone(l, LockedNext(l, txn))
  }

  lemma {:induction false} WalkReadsItsOrder(order: seq<PurchaseId>, purchases: PurchaseTable, purchases': PurchaseTable,
                                             hours: int, now: int, own: Option<BookingId>)
    requires forall p | p in order :: p in purchases && p in purchases' && purchases[p] == purchases'[p]
    ensures WalkDraws(order, purchases, hours, now, own) == WalkDraws(order, purchases', hours, now, own)
  {
    if order != [] && hours > 0 {
      var p := order[0];
      assert p in order;
      var rest := if Drawable(purchases[p], now, own) then hours - Min(purchases[p].remaining, hours) else hours;
      WalkReadsItsOrder(order[1..], purchases, purchases', rest, now, own);
    }
  }

  function FirstDraw(purchases: PurchaseTable, p: PurchaseId, needed: int, now: int, own: Option<BookingId>): seq<Draw>
    requires p in purchases
  {
    if Drawable(purchases[p], now, own) then [Draw(p, Min(purchases[p].remaining, needed))] else []
  }

  lemma WalkDrawsStep(order: seq<PurchaseId>, purchases: PurchaseTable, needed: int, now: int, own: Option<BookingId>)
    requires order != [] && needed > 0 && order[0] in purchases
    ensures var first := FirstDraw(purchases, order[0], needed, now, own);
            WalkDraws(order, purchases, needed, now, own)
            == first + WalkDraws(order[1..], purchases, needed - TotalDrawn(first), now, own)
  {
    var first := FirstDraw(purchases, order[0], needed, now, own);
    assert first == [] || first[1..] == [];
  }

  lemma OneLockAlone(l: Ledger, txn: Txn)
    requires txn.todo.Walking? && !NeedsNoLock(txn) && (forall p | p in txn.wants :: p in l.purchases)
    requires forall i, j | 0 <= i < j < |txn.wants| :: txn.wants[i] != txn.wants[j]
    ensures txn.wants[0] in l.purchases && txn.wants[0] in Visible(l, txn)
    ensures var after, todo := LockedNext(l, txn), txn.todo;
            var first := FirstDraw(Visible(l, txn), txn.wants[0], todo.needed, todo.now, todo.own);
            && after.wants == txn.wants[1..] && after.pending == txn.pending + first
            && after.todo == Walking(todo.needed - TotalDrawn(first), todo.now, todo.own)
            && forall q | q in txn.wants[1..] ::
                 q in Visible(l, after) && q in Visible(l, txn) && Visible(l, after)[q] == Visible(l, txn)[q]
  {
    var p, rest := txn.wants[0], txn.wants[1..];
    assert p in txn.wants;
    forall q | q in rest ensures q != p && q in l.purchases {
      var i :| 0 <= i < |rest| && rest[i] == q;
      assert txn.wants[i + 1] == q;
    }
    var first := FirstDraw(Visible(l, txn), p, txn.todo.needed, txn.todo.now, txn.todo.own);
    assert first == [] || first[1..] == [];
    assert txn.pending + [] == txn.pending;
  }

  lemma WalkedAloneStep(l: Ledger, txn: Txn)
    requires txn.todo.Walking? && forall p | p in txn.wants :: p in l.purchases
    ensures if NeedsNoLock(txn) then WalkedAlone(l, txn) == txn
            else
              && txn.wants != [] && txn.todo.needed > 0
              && txn.wants[0] in l.purchases && LockedNext(l, txn).todo.Walking?
              && (forall p | p in LockedNext(l, txn).wants :: p in l.purchases)
              && WalkedAlone(l, txn) == WalkedAlone(l, LockedNext(l, txn))
  {
    if !NeedsNoLock(txn) {
      assert txn.wants[0] in txn.wants && forall p | p in txn.wants[1..] :: p in txn.wants;
    }
  }

  lemma NothingToWalk(l: Ledger, txn: Txn)
    requires txn.todo.Walking? && NeedsNoLock(txn)
    ensures txn.pending == txn.pending + WalkDraws(txn.wants, Visible(l, txn), txn.todo.needed, txn.todo.now, txn.todo.own)
  {
    assert txn.pending + [] == txn.pending;
  }

  /** Statement by statement, with nobody in between, the walk draws exactly
      what the walk of the sequential ledger draws. */
  lemma {:induction false} AloneItIsTheWalk(l: Ledger, txn: Txn)
    requires txn.todo.Walking? && (forall p | p in txn.wants :: p in l.purchases)
    requires forall i, j | 0 <= i < j < |txn.wants| :: txn.wants[i] != txn.wants[j]
    ensures WalkedAlone(l, txn).pending
            == txn.pending + WalkDraws(txn.wants, Visible(l, txn), txn.todo.needed, txn.todo.now, txn.todo.own)
    decreases |txn.wants|
  {
    hide *;
    WalkedAloneStep(l, txn);
    if NeedsNoLock(txn) {
      NothingToWalk(l, txn);
    } else {
      var todo, rest, after := txn.todo, txn.wants[1..], LockedNext(l, txn);
      OneLockAlone(l, txn);
      AloneItIsTheWalk(l, after);
      WalkReadsItsOrder(rest, Visible(l, txn), Visible(l, after), after.todo.needed, todo.now, todo.own);
      WalkDrawsStep(txn.wants, Visible(l, txn), todo.needed, todo.now, todo.own);
      var first := FirstDraw(Visible(l, txn), txn.wants[0], todo.needed, todo.now, todo.own);
      var tail := WalkDraws(rest, Visible(l, txn), after.todo.needed, todo.now, todo.own);
      assert txn.pending + first + tail == txn.pending + (first + tail);
    }
  }
}
