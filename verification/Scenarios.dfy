/** Runs from the empty state that reach what the theorems make exceptions for:
    a written-off credit, and money that nothing records. */
module Scenarios {
  import opened Model
  import opened Ledgers
  import opened Credit
  import opened Zones
  import opened OpeningHours
  import opened OpenWindow
  import opened Lifecycle
  import opened Invariant
  import opened Runs
  import opened Availability
  import opened Reinstatement

  // ---- a room, a request, a state with one booking ------------------------------------------

  /** A room on UTC, open from 9 to 17 on Saturdays. */
  const SATURDAYS := Calendar(map[0 := Fixed(0)], map[0 := [Rule(5, 9 * HOUR, 17 * HOUR, true)]])
  /** 9 o'clock on the third day of the epoch, a Saturday. */
  const NINE := 2 * DAY + 9 * HOUR
  const HOURLY_RATE := 1000

  const REQUEST := Request(0, 0, 0, NINE, NINE + HOUR, Hourly)

  const BOOK := Event(Book(SATURDAYS, REQUEST, 0, 0, HOURLY_RATE, true), 0)
  const PAY := Event(CustomerPays(0), 1)
  const COMPLETE := Event(CompletionArrives(0), 1)
  const CANCEL := Event(CancelBooking(0, 0, HOURLY_RATE, 0), 2)
  const PUT_BACK := Event(EditBooking(0, Confirmed, true, 0, 1), 3)

  lemma TheHourIsOpen()
    ensures IsOpen(SATURDAYS, 0, NINE, NINE + HOUR)
  {
    var rules, z := RulesOf(SATURDAYS, 0), ZoneOf(SATURDAYS, 0);
    assert Local(z, NINE) == NINE && LocalDay(z, NINE) == 2;
    assert rules[0].active && rules[0].weekday == Weekday(2) && rules[0].open <= NINE % DAY < rules[0].close;
    OpenHourReadsTheClock(rules, z, NINE);
    WholeHourRulesHaveNoOffHourSlots(rules, z, NINE);
    OneHourIsOneSlot(rules, z, NINE);
  }

  /** The row the request becomes. */
  function Hold(): Booking {
    Booking(0, 0, 0, NINE, NINE + HOUR, ONE_HOUR, HOURLY_RATE, 0, None, Pending, Hourly, Some(0), Some(HOLD_LIFETIME), None)
  }

  function OneBooking(bk: Booking, session: SessionState, purchases: PurchaseTable): State {
    State(Ledger(purchases, map[]), map[0 := bk], map[0 := Session(0, session)], {}, {})
  }

  lemma NothingToSweep(s: State, scope: Scope, now: int)
    requires forall b | b in s.bookings :: !Lapsed(s.bookings[b], now)
    ensures Reconciled(s, scope, now) == s
  {
    NothingToReconcile(s, scope, now);
  }

  lemma TheRowIsTheHold()
    ensures WholeHours(NINE, NINE + HOUR) == ONE_HOUR && AmountFor(ONE_HOUR, HOURLY_RATE) == HOURLY_RATE
    ensures NewBooking(REQUEST, 0, HOURLY_RATE, 0, 0) == Hold()
  {
  }

  lemma Booked()
    ensures Next(EmptyState({}), BOOK) == OneBooking(Hold(), Open, map[])
  {
    var s := EmptyState({});
    TheHourIsOpen();
    TheRowIsTheHold();
    NothingToSweep(s, RoomWindow(0, NINE, NINE + HOUR), 0);
    assert Debited(map[], []) == map[] && WithRows(map[], 0, []) == map[];
    hide IsOpen, Reconciled, NewBooking, WholeHours;
    assert Create(s, SATURDAYS, REQUEST, 0, 0, 0, HOURLY_RATE, true).state == OneBooking(Hold(), Open, map[]);
  }

  lemma Paying(bk: Booking, purchases: PurchaseTable)
    ensures Pay(OneBooking(bk, Open, purchases), 0) == OneBooking(bk, Paid, purchases)
  {
  }

  lemma Completing()
    ensures CheckoutCompleted(OneBooking(Hold(), Paid, map[]), 0, 1)
            == Result(OneBooking(Received(Hold(), Confirmed, 1), Paid, map[]), Done)
  {
    var s := OneBooking(Hold(), Paid, map[]);
    assert map[0 := Hold()][0 := Received(Hold(), Confirmed, 1)] == map[0 := Received(Hold(), Confirmed, 1)];
    hide Reconciled;
  }

  function Confirmed1(): Booking { Received(Hold(), Confirmed, 1) }

  function CreditLeftBehind(): Purchase { FreshCredit(Confirmed1(), 0, ONE_HOUR, 2) }

  lemma Cancelling()
    ensures Cancel(OneBooking(Confirmed1(), Paid, map[]), 0, 0, 2, HOURLY_RATE, 0)
            == Result(OneBooking(Confirmed1().(status := Cancelled), Paid, map[0 := CreditLeftBehind()]), Done)
  {
    var bk := Confirmed1();
    var s := OneBooking(bk, Paid, map[]);
    assert CreditHours(HOURLY_RATE, HOURLY_RATE) == ONE_HOUR;
    assert CreditsOf(map[], 0) == {};
    assert map[0 := bk][0 := bk.(status := Cancelled)] == map[0 := bk.(status := Cancelled)];
    hide CreditHours;
  }

  lemma PuttingBack()
    ensures EditStatus(OneBooking(Confirmed1().(status := Cancelled), Paid, map[0 := CreditLeftBehind()]), 0, Confirmed, true, 0, 3, 1)
            == Result(OneBooking(Confirmed1(), Paid, map[0 := Reversed(CreditLeftBehind())]), Done)
  {
    var gone := Confirmed1().(status := Cancelled);
    var s := OneBooking(gone, Paid, map[0 := CreditLeftBehind()]);
    NothingToSweep(s, RoomWindow(0, NINE, NINE + HOUR), 3);
    hide Reconciled;
    assert 0 in CreditsOf(s.ledger.purchases, 0) && forall p | p in CreditsOf(s.ledger.purchases, 0) :: p == 0;
    assert ReversalOf(s.ledger.purchases, 0) == Reverse(0);
    assert map[0 := gone][0 := Confirmed1()] == map[0 := Confirmed1()];
    assert map[0 := CreditLeftBehind()][0 := Reversed(CreditLeftBehind())] == map[0 := Reversed(CreditLeftBehind())];
    hide ReversalOf;
  }

  // ---- the same as steps of a run ------------------------------------------------------------

  lemma PayStep(bk: Booking)
    ensures Next(OneBooking(bk, Open, map[]), PAY) == OneBooking(bk, Paid, map[])
  {
    hide Pay;
    Paying(bk, map[]);
  }

  lemma CompleteStep()
    ensures Next(OneBooking(Hold(), Paid, map[]), COMPLETE) == OneBooking(Confirmed1(), Paid, map[])
  {
    hide CheckoutCompleted;
    Completing();
  }

  lemma CancelStep()
    ensures Next(OneBooking(Confirmed1(), Paid, map[]), CANCEL)
            == OneBooking(Confirmed1().(status := Cancelled), Paid, map[0 := CreditLeftBehind()])
  {
    hide Cancel;
    Cancelling();
  }

  lemma LetGoStep()
    ensures Next(OneBooking(Hold(), Open, map[]), CANCEL) == OneBooking(Hold().(status := Cancelled), Open, map[])
  {
    hide Cancel;
    LettingGo();
  }

  lemma PutBackStep()
    ensures Next(OneBooking(Confirmed1().(status := Cancelled), Paid, map[0 := CreditLeftBehind()]), PUT_BACK)
            == OneBooking(Confirmed1(), Paid, map[0 := Reversed(CreditLeftBehind())])
  {
    hide EditStatus;
    PuttingBack();
  }

  lemma FiveSteps(s: State, a: Event, b: Event, c: Event, d: Event, e: Event)
    ensures After(s, [a, b, c, d, e]) == Next(Next(Next(Next(Next(s, a), b), c), d), e)
  {
    hide Next;
    assert [a, b, c, d, e][1..] == [b, c, d, e];
    ThreeSteps(Next(Next(s, a), b), c, d, e);
    assert [b, c, d, e][1..] == [c, d, e];
    assert After(Next(s, a), [b, c, d, e]) == After(Next(Next(s, a), b), [c, d, e]);
  }

  lemma ThreeSteps(s: State, a: Event, b: Event, c: Event)
    ensures After(s, [a, b, c]) == Next(Next(Next(s, a), b), c)
  {
    hide Next;
    assert [a, b, c][1..] == [b, c];
    TwoSteps(Next(s, a), b, c);
  }

  lemma TwoSteps(s: State, a: Event, b: Event)
    ensures After(s, [a, b]) == Next(Next(s, a), b)
  {
    hide Next;
    assert [a, b][1..] == [b] && [b][1..] == [];
    assert After(Next(s, a), [b]) == Next(Next(s, a), b);
  }

  // ---- a credit written off -------------------------------------------------------------------

  lemma WrittenOffCredit()
    ensures WrittenOff(Reversed(CreditLeftBehind()))
    ensures Reversed(CreditLeftBehind()).used + Reversed(CreditLeftBehind()).remaining != Reversed(CreditLeftBehind()).total
  {
  }

  /** Book, pay, complete, cancel two days ahead, put back: the credit row the
      cancellation left is written off, and its hours do not add up. */
  lemma SomeRunWritesACreditOff() returns (events: seq<Event>)
    ensures var s := After(EmptyState({}), events);
            exists p | p in s.ledger.purchases ::
              WrittenOff(s.ledger.purchases[p])
              && s.ledger.purchases[p].used + s.ledger.purchases[p].remaining != s.ledger.purchases[p].total
  {
    hide *;
    events := [BOOK, PAY, COMPLETE, CANCEL, PUT_BACK];
    Booked();
    PayStep(Hold());
    CompleteStep();
    CancelStep();
    PutBackStep();
    FiveSteps(EmptyState({}), BOOK, PAY, COMPLETE, CANCEL, PUT_BACK);
    OneBookingHas(Confirmed1(), Paid, map[0 := Reversed(CreditLeftBehind())]);
    WrittenOffCredit();
    var s := After(EmptyState({}), events);
    assert 0 in s.ledger.purchases && s.ledger.purchases[0] == Reversed(CreditLeftBehind());
  }

  lemma OneBookingHas(bk: Booking, session: SessionState, purchases: PurchaseTable)
    ensures var s := OneBooking(bk, session, purchases);
            s.bookings == map[0 := bk] && s.sessions == map[0 := Session(0, session)] && s.ledger.purchases == purchases
  {
  }

  // ---- money nothing records --------------------------------------------------------------------

  lemma LettingGo()
    ensures Cancel(OneBooking(Hold(), Open, map[]), 0, 0, 2, HOURLY_RATE, 0)
            == Result(OneBooking(Hold().(status := Cancelled), Open, map[]), Done)
  {
    var gone := Hold().(status := Cancelled);
    assert map[0 := Hold()][0 := gone] == map[0 := gone];
    hide CreditHours;
  }

  /** The hold as an edit leaves it once the operator sets it to `next`. */
  function Settled(next: Status): Booking {
    Hold().(status := next, holdExpires := None)
  }

  lemma EditingTheHold(next: Status)
    requires next == Confirmed || next == Cancelled || next == Completed
    ensures EditStatus(OneBooking(Hold(), Paid, map[]), 0, next, false, 0, 3, 0)
            == Result(OneBooking(Settled(next), Paid, map[]), Done)
  {
    assert map[0 := Hold()][0 := Settled(next)] == map[0 := Settled(next)];
  }

  lemma EditingTheCancelledHold()
    ensures EditStatus(OneBooking(Hold().(status := Cancelled), Paid, map[]), 0, Cancelled, true, 0, 3, 0)
            == Result(OneBooking(Settled(Cancelled), Paid, map[]), Done)
  {
    var gone := Hold().(status := Cancelled);
    assert map[0 := gone][0 := Settled(Cancelled)] == map[0 := Settled(Cancelled)];
  }

  lemma SettledIgnoresMoney(next: Status, later: int)
    requires next == Confirmed || next == Cancelled || next == Completed
    ensures var s := OneBooking(Settled(next), Paid, map[]);
            CheckoutCompleted(s, 0, later) == Result(s, Ignored) && s.bookings[0].paidAt.None?
  {
    hide Reconciled;
  }

  /** The customer has paid, nothing has recorded it, and the delivery after the
      edit, whenever it comes, records nothing either. */
  ghost predicate DropsMoney(s: State, next: Status, credited: bool, later: int) {
    && 0 in s.sessions && s.sessions[0] == Session(0, Paid) && 0 in s.bookings && s.bookings[0].paidAt.None?
    && var r := EditStatus(s, 0, next, credited, 0, 3, 0);
    && r.reply == Done && 0 in r.state.bookings && r.state.bookings[0].paidAt.None?
    && CheckoutCompleted(r.state, 0, later) == Result(r.state, Ignored)
  }

  lemma DropsMoneyWhen(bk: Booking, edited: Booking, next: Status, credited: bool, later: int)
    requires bk.paidAt.None? && edited.paidAt.None?
    requires EditStatus(OneBooking(bk, Paid, map[]), 0, next, credited, 0, 3, 0) == Result(OneBooking(edited, Paid, map[]), Done)
    requires var s := OneBooking(edited, Paid, map[]); CheckoutCompleted(s, 0, later) == Result(s, Ignored)
    ensures DropsMoney(OneBooking(bk, Paid, map[]), next, credited, later)
  {
    hide EditStatus, CheckoutCompleted;
  }

  /** Book, pay, and before the completion arrives the operator sets the booking
      to confirmed, cancelled or completed. */
  lemma SettingAStatusCanDropMoney(next: Status, later: int) returns (events: seq<Event>)
    requires next == Confirmed || next == Cancelled || next == Completed
    ensures var s := After(EmptyState({}), events);
            0 in s.bookings && s.bookings[0].status == Pending && DropsMoney(s, next, false, later)
  {
    events := [BOOK, PAY];
    assert Hold().paidAt.None? && Hold().status == Pending && Settled(next).paidAt.None?;
    hide *;
    Booked();
    PayStep(Hold());
    TwoSteps(EmptyState({}), BOOK, PAY);
    EditingTheHold(next);
    SettledIgnoresMoney(next, later);
    DropsMoneyWhen(Hold(), Settled(next), next, false, later);
    OneBookingHas(Hold(), Paid, map[]);
  }

  /** Book, cancel, pay the checkout that is still open: now any edit at all
      drops the money, even one that leaves the status as it is. */
  lemma AnyEditCanDropMoney(later: int) returns (events: seq<Event>)
    ensures var s := After(EmptyState({}), events);
            0 in s.bookings && s.bookings[0].status == Cancelled && DropsMoney(s, Cancelled, true, later)
  {
    events := [BOOK, CANCEL, PAY];
    var gone := Hold().(status := Cancelled);
    assert gone.paidAt.None? && Settled(Cancelled).paidAt.None?;
    hide *;
    Booked();
    LetGoStep();
    PayStep(gone);
    ThreeSteps(EmptyState({}), BOOK, CANCEL, PAY);
    EditingTheCancelledHold();
    SettledIgnoresMoney(Cancelled, later);
    DropsMoneyWhen(gone, Settled(Cancelled), Cancelled, true, later);
    OneBookingHas(gone, Paid, map[]);
  }
}
