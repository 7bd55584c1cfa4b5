/** Whole runs: any sequence of requests, provider events, edits and sweeps. */
module Runs {
  import opened Model
  import opened Ledgers
  import opened Books
  import opened Lifecycle
  import opened Invariant
  import opened Preservation
  import opened Recurrence
  import opened Series
  import opened KeptBooks

  // ---- events --------------------------------------------------------------------------

  /** One thing that can happen, with the ids and the provider's answers it meets. */
  datatype Step =
    | Book(cal: Calendar, req: Request, id: BookingId, session: SessionId, rate: nat, providerUp: bool)
    | CustomerPays(session: SessionId)
    | SessionRunsOut(session: SessionId)
    | CompletionArrives(session: SessionId)
    | ExpiryArrives(session: SessionId)
    | PayAgain(b: BookingId, user: UserId, session: SessionId, faults: Faults)
    | CancelBooking(b: BookingId, user: UserId, rate: nat, newId: PurchaseId)
    | EditBooking(b: BookingId, next: Status, credited: bool, rate: nat, newId: PurchaseId)
    | MoveBooking(cal: Calendar, b: BookingId, room: RoomId, start: int, end: int)
    | Reconcile(scope: Scope)
    | BuyPack(p: PurchaseId, user: UserId, org: OrgId, hours: nat, expires: int, paid: bool)
    | SettlePack(p: PurchaseId, paid: bool)
    | BookSeries(series: SeriesRequest, first: BookingId)
    | EditSeries(series: SeriesRequest, first: BookingId, c: Crediting)
    | DropSeries(id: SeriesId, from: Option<int>, c: Crediting)
    | ChangeBlocks(blocks: set<Block>)

  datatype Event = Event(step: Step, now: int)

  predicate IdsAbove(s: State, first: BookingId) {
    forall b | b in s.bookings :: b < first
  }

  /** Ids handed out are new. */
  predicate IsFresh(s: State, step: Step) {
    match step
    case Book(_, _, id, session, _, _) => id !in s.bookings && session !in s.sessions
    case PayAgain(_, _, session, _) => session !in s.sessions
    case CancelBooking(_, _, _, newId) => newId !in s.ledger.purchases
    case EditBooking(_, _, _, _, newId) => newId !in s.ledger.purchases
    case BuyPack(p, _, _, _, _, _) => p !in s.ledger.purchases
    case BookSeries(series, first) => IdsAbove(s, first) && series.series !in s.closed && series.duration >= 0
    case EditSeries(series, first, c) => IdsAbove(s, first) && PurchasesBelow(s, c.first) && series.duration >= 0
    case DropSeries(_, _, c) => PurchasesBelow(s, c.first)
    case _ => true
  }

  /** The state after one event, whatever it is. */
  ghost function Applied(s: State, e: Event): State {
    if !IsFresh(s, e.step) then s
    else
      match e.step
      case Book(cal, req, id, session, rate, providerUp) => Create(s, cal, req, id, session, e.now, rate, providerUp).state
      case CustomerPays(session) => Pay(s, session)
      case SessionRunsOut(session) => RunOut(s, session)
      case CompletionArrives(session) => CheckoutCompleted(s, session, e.now).state
      case ExpiryArrives(session) => LetGo(s, session, e.now).state
      case PayAgain(b, user, session, faults) => Resume(s, b, user, session, e.now, faults).state
      case CancelBooking(b, user, rate, newId) => Cancel(s, b, user, e.now, rate, newId).state
      case EditBooking(b, next, credited, rate, newId) => EditStatus(s, b, next, credited, rate, e.now, newId).state
      case MoveBooking(cal, b, room, start, end) =>
        // Debit rows reference purchases that exist.
        if exists k | k in s.ledger.debits :: k.purchase !in s.ledger.purchases then s
        else MoveTo(s, cal, b, room, start, end, e.now).state
      case Reconcile(scope) => Reconciled(s, scope, e.now)
      case BuyPack(p, user, org, hours, expires, paid) => AddPurchase(s, p, user, org, hours, expires, paid)
      case SettlePack(p, paid) => SettlePurchase(s, p, paid)
      case BookSeries(series, first) => CreateSeries(s, series, first, e.now).state
      case EditSeries(series, first, c) => UpdateSeries(s, series, first, e.now, c).state
      case DropSeries(id, from, c) => CancelSeries(s, id, from, e.now, c).state
      case ChangeBlocks(blocks) => s.(blocks := blocks)
  }

  /** The operator's edits and moves that keep the whole invariant, by
      EditKeepsInvExactlyIf and MoveKeepsInvExactlyIf. */
  predicate StaysInOrder(s: State, step: Step) {
    match step
    case EditBooking(b, next, _, _, _) =>
      b in s.bookings ==> !Crosses(s.bookings[b], next) && !StrandsCredit(s.ledger.purchases, b, next)
    case MoveBooking(_, b, _, _, _) => b in s.bookings ==> !Crosses(s.bookings[b], s.bookings[b].status)
    case _ => true
  }

  /** The same, for an operator who makes only such edits and moves. */
  ghost function Next(s: State, e: Event): State {
    if StaysInOrder(s, e.step) then Applied(s, e) else s
  }

  // ---- any event ---------------------------------------------------------------------------

  /** What customers and the payment provider do. */
  predicate AtTheCheckout(step: Step) {
    step.Book? || step.CustomerPays? || step.SessionRunsOut? || step.CompletionArrives? || step.ExpiryArrives?
    || step.PayAgain? || step.CancelBooking?
  }

  lemma CheckoutKept(s: State, e: Event)
    requires BooksKept(s) && IsFresh(s, e.step) && AtTheCheckout(e.step)
    ensures BooksKept(Applied(s, e))
  {
    hide BooksKept, Create, CheckoutCompleted, LetGo, Resume, Cancel, Pay, RunOut;
    match e.step
    case Book(cal, req, id, session, rate, providerUp) => CreateKept(s, cal, req, id, session, e.now, rate, providerUp);
    case CustomerPays(session) => PayKept(s, session);
    case SessionRunsOut(session) => RunOutKept(s, session);
    case CompletionArrives(session) => CompletionKept(s, session, e.now);
    case ExpiryArrives(session) => LetGoKept(s, session, e.now);
    case PayAgain(b, user, session, faults) => ResumeKept(s, b, user, session, e.now, faults);
    case CancelBooking(b, user, rate, newId) => CancelKept(s, b, user, e.now, rate, newId);
  }

  predicate OfASeries(step: Step) {
    step.BookSeries? || step.EditSeries? || step.DropSeries?
  }

  lemma SeriesKept(s: State, e: Event)
    requires BooksKept(s) && IsFresh(s, e.step) && OfASeries(e.step)
    ensures BooksKept(Applied(s, e))
  {
    hide BooksKept, CreateSeries, UpdateSeries, CancelSeries;
    match e.step
    case BookSeries(series, first) => CreateSeriesKept(s, series, first, e.now);
    case EditSeries(series, first, c) => UpdateSeriesKept(s, series, first, e.now, c);
    case DropSeries(id, from, c) => CancelSeriesKept(s, id, from, e.now, c);
  }

  lemma OfficeKept(s: State, e: Event)
    requires BooksKept(s) && IsFresh(s, e.step) && !AtTheCheckout(e.step) && !OfASeries(e.step)
    ensures BooksKept(Applied(s, e))
  {
    hide BooksKept, EditStatus, MoveTo, Reconciled, SettlePurchase, AddPurchase;
    match e.step
    case EditBooking(b, next, credited, rate, newId) => EditKept(s, b, next, credited, rate, e.now, newId);
    case MoveBooking(cal, b, room, start, end) =>
      RowsPoint(s);
      MoveKept(s, cal, b, room, start, end, e.now);
    case Reconcile(scope) => SweepKept(s, scope, e.now);
    case BuyPack(p, user, org, hours, expires, paid) => AddPurchaseKept(s, p, user, org, hours, expires, paid);
    case SettlePack(p, paid) => SettlePurchaseKept(s, p, paid);
    case ChangeBlocks(blocks) => ApartKept(s, blocks, s.closed);
  }

  lemma AppliedKept(s: State, e: Event)
    requires BooksKept(s)
    ensures BooksKept(Applied(s, e))
  {
    hide *;
    if !IsFresh(s, e.step) {
      NotApplied(s, e);
    } else if AtTheCheckout(e.step) {
      CheckoutKept(s, e);
    } else if OfASeries(e.step) {
      SeriesKept(s, e);
    } else {
      OfficeKept(s, e);
    }
  }

  lemma NotApplied(s: State, e: Event)
    requires !IsFresh(s, e.step)
    ensures Applied(s, e) == s
  {
    hide IsFresh;
  }

  lemma RowsPoint(s: State)
    requires BooksKept(s)
    ensures forall k | k in s.ledger.debits :: k.purchase in s.ledger.purchases
  {
    hide CreditsMatch, NoDoubleBooking, SessionsStand;
  }

  // ---- events that keep the whole invariant ----------------------------------------------------

  lemma CheckoutKeepsInv(s: State, e: Event)
    requires Inv(s) && IsFresh(s, e.step) && AtTheCheckout(e.step)
    ensures Inv(Applied(s, e))
  {
    hide Inv, Create, CheckoutCompleted, LetGo, Resume, Cancel, Pay, RunOut;
    match e.step
    case Book(cal, req, id, session, rate, providerUp) => CreateIsSound(s, cal, req, id, session, e.now, rate, providerUp);
    case CustomerPays(session) => PayKeepsInv(s, session);
    case SessionRunsOut(session) => RunOutKeepsInv(s, session);
    case CompletionArrives(session) => CompletionIsSound(s, session, e.now);
    case ExpiryArrives(session) => LetGoIsSound(s, session, e.now);
    case PayAgain(b, user, session, faults) => ResumeIsSound(s, b, user, session, e.now, faults);
    case CancelBooking(b, user, rate, newId) => CancelIsSound(s, b, user, e.now, rate, newId);
  }

  lemma SeriesKeepInv(s: State, e: Event)
    requires Inv(s) && IsFresh(s, e.step) && OfASeries(e.step)
    ensures Inv(Applied(s, e))
  {
    hide Inv, CreateSeries, UpdateSeries, CancelSeries, ValidatedWindow, TakenBy, Replaceable, CreditsFit, Remaining;
    match e.step
    case BookSeries(series, first) => SeriesIsAllOrNothing(s, series, first, e.now);
    case EditSeries(series, first, c) => SeriesEditIsAllOrNothing(s, series, first, e.now, c);
    case DropSeries(id, from, c) => CancelSeriesIsAllOrNothing(s, id, from, e.now, c);
  }

  lemma OfficeKeepsInv(s: State, e: Event)
    requires Inv(s) && IsFresh(s, e.step) && !AtTheCheckout(e.step) && !OfASeries(e.step) && StaysInOrder(s, e.step)
    ensures Inv(Applied(s, e))
  {
    hide Inv, EditStatus, MoveTo, Reconciled, SettlePurchase, AddPurchase, Crosses, StrandsCredit;
    match e.step
    case EditBooking(b, next, credited, rate, newId) => EditIsSound(s, b, next, credited, rate, e.now, newId);
    case MoveBooking(cal, b, room, start, end) => MoveIsSound(s, cal, b, room, start, end, e.now);
    case Reconcile(scope) => ReconciledKeepsInv(s, scope, e.now);
    case BuyPack(p, user, org, hours, expires, paid) => AddPurchaseKeepsInv(s, p, user, org, hours, expires, paid);
    case SettlePack(p, paid) => SettlePurchaseKeepsInv(s, p, paid);
    case ChangeBlocks(blocks) => BlocksDoNotMatter(s, blocks);
  }

  lemma NextKeepsInv(s: State, e: Event)
    requires Inv(s)
    ensures Inv(Next(s, e))
  {
    hide *;
    NextIs(s, e);
    if IsFresh(s, e.step) && StaysInOrder(s, e.step) {
      if AtTheCheckout(e.step) {
        CheckoutKeepsInv(s, e);
      } else if OfASeries(e.step) {
        SeriesKeepInv(s, e);
      } else {
        OfficeKeepsInv(s, e);
      }
    }
  }

  lemma NextIs(s: State, e: Event)
    ensures Next(s, e) == if IsFresh(s, e.step) && StaysInOrder(s, e.step) then Applied(s, e) else s
  {
    hide IsFresh, StaysInOrder;
  }

  lemma BlocksDoNotMatter(s: State, blocks: set<Block>)
    requires Inv(s)
    ensures Inv(s.(blocks := blocks))
  {
    hide BooksMatch, CreditsMatch, NoDoubleBooking, SessionsMatch;
  }

  // ---- runs -------------------------------------------------------------------------------

  /** Any run at all. */
  ghost function AfterAny(s: State, events: seq<Event>): State
    decreases |events|
  {
    if events == [] then s else AfterAny(Applied(s, events[0]), events[1..])
  }

  /** A run whose edits and moves keep the whole invariant. */
  ghost function After(s: State, events: seq<Event>): State
    decreases |events|
  {
    if events == [] then s else After(Next(s, events[0]), events[1..])
  }

  lemma {:induction false} AnyRunKeepsBooks(s: State, events: seq<Event>)
    requires BooksKept(s)
    ensures BooksKept(AfterAny(s, events))
    decreases |events|
  {
    hide BooksKept, Applied;
    if events != [] {
      AppliedKept(s, events[0]);
      AnyRunKeepsBooks(Applied(s, events[0]), events[1..]);
    }
  }

  lemma {:induction false} RunKeepsInv(s: State, events: seq<Event>)
    requires Inv(s)
    ensures Inv(After(s, events))
    decreases |events|
  {
    hide Inv, Next;
    if events != [] {
      NextKeepsInv(s, events[0]);
      RunKeepsInv(Next(s, events[0]), events[1..]);
    }
  }

  /** The events of a run that it does not leave out. */
  ghost function Orderly(s: State, events: seq<Event>): seq<Event>
    decreases |events|
  {
    if events == [] then []
    else (if StaysInOrder(s, events[0].step) then [events[0]] else []) + Orderly(Next(s, events[0]), events[1..])
  }

  lemma AnyRunUnfolds(s: State, events: seq<Event>)
    ensures AfterAny(s, events) == if events == [] then s else AfterAny(Applied(s, events[0]), events[1..])
  {
  }

  /** So whatever holds after any run holds after those that leave edits out. */
  lemma {:induction false} OrderlyRunsAreRuns(s: State, events: seq<Event>)
    ensures After(s, events) == AfterAny(s, Orderly(s, events))
    decreases |events|
  {
    hide Applied, StaysInOrder, AfterAny;
    if events == [] {
      AnyRunUnfolds(s, []);
    } else {
      var rest := Orderly(Next(s, events[0]), events[1..]);
      OrderlyRunsAreRuns(Next(s, events[0]), events[1..]);
      if StaysInOrder(s, events[0].step) {
        assert ([events[0]] + rest)[1..] == rest;
        AnyRunUnfolds(s, [events[0]] + rest);
      } else {
        assert [] + rest == rest;
      }
    }
  }

  /** In every state any run reaches, whatever the operator edits or moves in
      it: no purchase is overdrawn and its used hours are its debit rows; hours
      add up on a purchase if and only if it is not a written-off credit; a
      credit is worth something, belongs to its booking's customer and is the
      only one of that booking; every booking holds exactly its pack share, no
      more than its length, in the statuses that hold hours and nothing in the
      others; and no two pending or confirmed bookings of a room overlap. */
  lemma EveryRunKeepsTheBooks(blocks: set<Block>, events: seq<Event>)
    ensures var s := AfterAny(EmptyState(blocks), events);
            && (forall p | p in s.ledger.purchases ::
                  var q := s.ledger.purchases[p];
                  && q.used == HoursOn(s.ledger.debits, p) && 0 <= q.used && 0 <= q.remaining
                  && (q.used + q.remaining == q.total <==> !WrittenOff(q))
                  && (q.source.Some? ==> q.total > 0 && q.source.value in s.bookings
                                         && q.user == s.bookings[q.source.value].user))
            && (forall b | b in s.bookings ::
                  && HoursFor(s.ledger.debits, b) == (if HoldsHours(s.bookings[b].status) then s.bookings[b].share else 0)
                  && 0 <= s.bookings[b].share <= s.bookings[b].duration)
            && (forall k | k in s.ledger.debits ::
                  && k.booking in s.bookings && k.purchase in s.ledger.purchases && s.ledger.debits[k] > 0
                  && s.ledger.purchases[k.purchase].user == s.bookings[k.booking].user)
            && (forall p, q | p in s.ledger.purchases && q in s.ledger.purchases && p != q
                              && s.ledger.purchases[p].source.Some? ::
                  s.ledger.purchases[p].source != s.ledger.purchases[q].source)
            && (forall b, c | b in s.bookings && c in s.bookings && b != c
                              && s.bookings[b].room == s.bookings[c].room
                              && Occupies(s.bookings[b].status) && Occupies(s.bookings[c].status) ::
                  !Overlap(s.bookings[b].start, s.bookings[b].end, s.bookings[c].start, s.bookings[c].end))
  {
    EmptyStateIsFine(blocks);
    InvKeepsBooks(EmptyState(blocks));
    AnyRunKeepsBooks(EmptyState(blocks), events);
    var s := AfterAny(EmptyState(blocks), events);
    hide *;
    forall p | p in s.ledger.purchases
      ensures var q := s.ledger.purchases[p];
              && q.used == HoursOn(s.ledger.debits, p) && 0 <= q.used && 0 <= q.remaining
              && (q.used + q.remaining == q.total <==> !WrittenOff(q))
              && (q.source.Some? ==> q.total > 0 && q.source.value in s.bookings
                                     && q.user == s.bookings[q.source.value].user)
    {
      HoursAddUp(s, p);
    }
    ShareIsHeld(s);
    RowsAreOwned(s);
    OneCreditPerBooking(s);
    NoTwoOverlap(s);
  }

  /** Hours add up on a purchase if and only if it is not written off. */
  lemma HoursAddUp(s: State, p: PurchaseId)
    requires BooksKept(s) && p in s.ledger.purchases
    ensures var q := s.ledger.purchases[p];
            && q.used == HoursOn(s.ledger.debits, p) && 0 <= q.used && 0 <= q.remaining
            && (q.used + q.remaining == q.total <==> !WrittenOff(q))
            && (q.source.Some? ==> q.total > 0 && q.source.value in s.bookings
                                   && q.user == s.bookings[q.source.value].user)
  {
    hide NoDoubleBooking, SessionsStand, HoursOn, HoursFor, Resting;
    assert BalancedPurchase(s.ledger, p) && CreditStands(s.ledger.purchases[p], s.bookings, false);
  }

  lemma ShareIsHeld(s: State)
    requires BooksKept(s)
    ensures forall b | b in s.bookings ::
              && HoursFor(s.ledger.debits, b) == (if HoldsHours(s.bookings[b].status) then s.bookings[b].share else 0)
              && 0 <= s.bookings[b].share <= s.bookings[b].duration
  {
    hide CreditsMatch, NoDoubleBooking, SessionsStand, Balanced, HoursFor, HoldsHours;
    forall b | b in s.bookings
      ensures && HoursFor(s.ledger.debits, b) == (if HoldsHours(s.bookings[b].status) then s.bookings[b].share else 0)
              && 0 <= s.bookings[b].share <= s.bookings[b].duration
    {
      assert HoursFor(s.ledger.debits, b) == Held(s.bookings[b]) && ShareFits(s.bookings[b]);
    }
  }

  lemma RowsAreOwned(s: State)
    requires BooksKept(s)
    ensures forall k | k in s.ledger.debits ::
              && k.booking in s.bookings && k.purchase in s.ledger.purchases && s.ledger.debits[k] > 0
              && s.ledger.purchases[k.purchase].user == s.bookings[k.booking].user
  {
    hide CreditsMatch, NoDoubleBooking, SessionsStand, HoursFor, HoursOn;
  }

  lemma OneCreditPerBooking(s: State)
    requires BooksKept(s)
    ensures forall p, q | p in s.ledger.purchases && q in s.ledger.purchases && p != q
                          && s.ledger.purchases[p].source.Some? ::
              s.ledger.purchases[p].source != s.ledger.purchases[q].source
  {
    hide BooksMatch, NoDoubleBooking, SessionsStand, CreditStands;
  }

  lemma NoTwoOverlap(s: State)
    requires BooksKept(s)
    ensures forall b, c | b in s.bookings && c in s.bookings && b != c
                          && s.bookings[b].room == s.bookings[c].room
                          && Occupies(s.bookings[b].status) && Occupies(s.bookings[c].status) ::
              !Overlap(s.bookings[b].start, s.bookings[b].end, s.bookings[c].start, s.bookings[c].end)
  {
    hide BooksMatch, CreditsMatch, SessionsStand;
    forall b, c | b in s.bookings && c in s.bookings && b != c
                  && s.bookings[b].room == s.bookings[c].room
                  && Occupies(s.bookings[b].status) && Occupies(s.bookings[c].status)
      ensures !Overlap(s.bookings[b].start, s.bookings[b].end, s.bookings[c].start, s.bookings[c].end)
    {
      assert !Excluded(s.bookings, b, s.bookings[b]);
    }
  }

  /** In a run whose edits neither cross between paid and unpaid nor strand a
      credit, a credit is out of circulation unless its booking rests cancelled,
      and no booking draws on its own. */
  lemma OrderlyRunsRestCredits(blocks: set<Block>, events: seq<Event>)
    ensures var s := After(EmptyState(blocks), events);
            && (forall p | p in s.ledger.purchases && s.ledger.purchases[p].source.Some? ::
                  && s.ledger.purchases[p].source.value in s.bookings
                  && (WrittenOff(s.ledger.purchases[p]) || Resting(s.bookings[s.ledger.purchases[p].source.value])))
            && (forall k | k in s.ledger.debits ::
                  k.purchase in s.ledger.purchases && s.ledger.purchases[k.purchase].source != Some(k.booking))
  {
    EmptyStateIsFine(blocks);
    RunKeepsInv(EmptyState(blocks), events);
    var s := After(EmptyState(blocks), events);
    hide *;
    BooksAndCredits(s);
    RowsAvoidOwnCredit(s.ledger, s.bookings);
    forall p | p in s.ledger.purchases && s.ledger.purchases[p].source.Some?
      ensures && s.ledger.purchases[p].source.value in s.bookings
              && (WrittenOff(s.ledger.purchases[p]) || Resting(s.bookings[s.ledger.purchases[p].source.value]))
    {
      CreditRests(s.ledger, s.bookings, p);
    }
  }

  lemma CreditRests(l: Ledger, bookings: BookingTable, p: PurchaseId)
    requires CreditsMatch(l, bookings) && p in l.purchases && l.purchases[p].source.Some?
    ensures l.purchases[p].source.value in bookings
    ensures WrittenOff(l.purchases[p]) || Resting(bookings[l.purchases[p].source.value])
  {
    assert CreditStands(l.purchases[p], bookings);
  }
}
