# Hour bank, booking lifecycle and schedule

A Dafny model of the parts of this coworking platform in which money, hours and
time meet, with proofs of what they promise.

* **The hour bank.** A customer's purchases form one bank; a booking draws on it
  soonest-expiring first, and each draw is a debit row. `Ledger.dfy`,
  `Settlement.dfy`, `Books.dfy` and `Credit.dfy` say what each operation does as a
  function; `HourBank.dfy` does it row by row in a class, proved equal;
  `ConcurrentBank.dfy` interleaves it statement by statement under row locks.
* **The booking lifecycle.** `Lifecycle.dfy` gives every handler as a function from
  the whole state (ledger, bookings, the payment provider's sessions, blocks,
  cancelled series) to the whole state; `Desk.dfy` runs the handlers step by step with their rollbacks
  and savepoints, proved equal. `Invariant.dfy`, `Preservation.dfy`, `Runs.dfy`,
  `Payments.dfy` and `Conservation.dfy` prove what every run keeps, `KeptBooks.dfy`
  what no operator's edit can break; `Refunds.dfy`,
  `VisibleBalance.dfy`, `Reinstatement.dfy`, `UnmovedBookings.dfy` and
  `Reconciliation.dfy` what cancellations, reinstatements and lapsing holds add up
  to; `Scenarios.dfy` gives runs that reach what the theorems make exceptions for.
* **Clocks and opening hours.** `Zones.dfy` is a time zone with whole-hour offsets
  that change by an hour at most and not twice in 48 hours, read both ways as PEP
  495 defines it. `OpeningHours.dfy`, `OpenWindow.dfy`, `Availability.dfy` and
  `WallClock.dfy` build on it.
* **Series and limits.** `Recurrence.dfy` and `Series.dfy` are the weekly series on
  both sides of the wire; `BankBalance.dfy` the balance and the browser's payment
  preview; `RateLimit.dfy` and `FixedWindow.dfy` the two request limiters.

Hours are integers in hundredths (the columns' scale), money is in cents, instants
and wall-clock readings in microseconds, durations of settings at their defaults.
Every handler is one transaction: it commits whole or leaves what it found, except
for what it already did at the provider.

Where the code and its own documentation disagree, the model follows the code:

* The ledger's docstring states `hours_used + hours_remaining == hours_total` of
  every purchase. Reversing a cancellation credit zeroes the balance and leaves the
  total: the equation holds of a purchase in a reachable state if and only if it is
  not such a written-off credit (`Runs.EveryRunKeepsTheBooks`), and
  `Scenarios.SomeRunWritesACreditOff` reaches one.
* Series creation looks at bookings only, not at room blocks.
* Slots of rules that open off the hour are listed, and no interval they start or
  reach into is ever accepted. `OpenWindow.IsWithinOpenHours` gives the exact
  condition of the check and `Availability.ListedSlotsAreBookable` that of the
  listing, for any rules.
* The promise that a payment is never dropped holds for the customer's paths. An
  operator's edit may set any status on any booking, clears the deadline a
  completion looks for unless it sets pending, and leaves the checkout open. The
  next delivery of that money is ignored if and only if the status set is confirmed,
  cancelled, completed or paid_unfulfilled (`Payments.EditDropsMoneyExactlyIf`);
  `Scenarios.SettingAStatusCanDropMoney` and `Scenarios.AnyEditCanDropMoney` reach
  such states.
* "None of it was ever spent" is not what decides a reinstatement: a credit drawn
  on by a booking that was itself cancelled since can be taken back
  (`Reinstatement.ReversalNeedsAnUndrawnCredit`).
* Credits are exact only from a rate of 1.00 an hour upwards;
  `Credit.CreditIsExactExactlyFromOneAnHour` shows the bound is sharp.

## Model
| member | source | states |
|---|---|---|
| Runs.EveryRunKeepsTheBooks | backend/app/package_hours.py:1-31 | In every state any run of the modelled requests, provider events, sweeps and operator edits and moves of any kind reaches: used hours are the sum of the debit rows, no balance is negative, used + remaining = total on a purchase if and only if it is not a written-off credit, a credit is worth something and the only one of its booking, its customer's own, each booking's rows sum to its pack share in the hour-holding statuses and to nothing otherwise and lie on its own customer's purchases, and no two pending or confirmed bookings of a room overlap |
| Runs.AppliedKept | backend/app/routers/admin/bookings.py:301-511 | Every event there is, from any state whose books and slots are in order, leaves them in order, whether or not the rest of the invariant held |
| Runs.OrderlyRunsRestCredits | backend/app/cancellation_credit.py:121-145 | In a run whose edits neither cross between paid and unpaid nor strand a credit, a credit is out of circulation unless its booking rests cancelled, and no booking draws on its own |
| Runs.OrderlyRunsAreRuns | backend/app/routers/admin/bookings.py:301-511 | A run that leaves such edits out ends where the run of the remaining events does, so what holds after any run holds after it |
| Runs.RunKeepsInv | backend/app/package_hours.py:1-31 | Every event but the edits and moves that are shown to break it keeps the whole invariant of ledger, credits, slots and payments, so every run of them does |
| Scenarios.SomeRunWritesACreditOff | backend/app/cancellation_credit.py:121-145 | Booking, paying, completing, cancelling two days ahead and putting back is a run that leaves a purchase whose used and remaining hours are not its total |
| Conservation.EveryRunConservesHours | backend/app/package_hours.py:16-31 | In every state any run reaches, operator edits and moves of any kind included, what is left on a customer's purchases plus what his bookings hold is exactly what he bought, was granted or was credited and did not have written off |
| KeptBooks.EditKept | backend/app/routers/admin/bookings.py:373-511 | An edit of a booking's status from any status to any leaves books, slots and sessions in order even where earlier edits have crossed between paid and unpaid or stranded a credit |
| KeptBooks.MoveKept | backend/app/routers/admin/bookings.py:319-372 | So does a move of a booking in any status |
| Preservation.CreateIsSound | backend/app/routers/bookings.py:150-311 | Booking keeps the whole invariant, and after the lapsed holds are reconciled a slot without conflict never trips the exclusion constraint |
| Preservation.NewBookingPays | backend/app/routers/bookings.py:213-267 | A new booking is confirmed exactly if packs were asked for and cover all of it; otherwise it holds its slot for the hold lifetime and not an instant longer; its share fits its length and its payment fields agree with its status |
| Preservation.ResumeIsSound | backend/app/routers/bookings.py:453-569 | Paying again keeps the whole invariant and never trips the exclusion constraint |
| Preservation.CompletionIsSound | backend/app/routers/webhooks.py:105-211 | A completion, in time or late, keeps the whole invariant |
| Preservation.LetGoIsSound | backend/app/routers/webhooks.py:32-58 | Letting a hold go keeps the whole invariant |
| Preservation.CancelIsSound | backend/app/booking_cancellation.py:42-77 | Cancelling keeps the whole invariant, its credit included |
| Preservation.EditKeepsInvExactlyIf | backend/app/routers/admin/bookings.py:373-511 | An operator's edit of a booking's status, from any status to any, credited or not, always leaves slots disjoint and every booking holding its share in the right statuses; it keeps the whole invariant if and only if it neither crosses between paid and unpaid nor strands a credit |
| Preservation.MoveKeepsInvExactlyIf | backend/app/routers/admin/bookings.py:319-372 | A move of a booking in any status never trips the exclusion constraint and keeps books, credits and slots; it keeps the whole invariant if and only if the booking is not an unpaid hold the customer had cancelled |
| Preservation.StatusChangeKeepsInv | backend/app/package_hours.py:381-405 | Any status change of one booking that the constraint accepts, settled by the ledger's rule, keeps the whole invariant |
| Invariant.FreeSlotIsNotExcluded | backend/app/booking_validity.py:108-146 | Once a room's lapsed holds are reconciled, an interval without a slot-holding booking is one the exclusion constraint accepts, although the constraint cannot see the clock |
| Invariant.WritingKeepsSlots | backend/alembic/versions/0001_baseline_schema.py:299-306 | Writing only rows the constraint accepts keeps bookings of a room disjoint |
| Invariant.ExpireAllKeepsInv | backend/app/booking_validity.py:159-195 | Flipping any set of lapsed holds and releasing their hours keeps the whole invariant |
| Invariant.OpeningKeepsSessions | backend/app/routers/bookings.py:516-569 | A fresh session for a booking whose previous one is closed leaves one payable session per booking, the current one |
| Payments.OnePayableSession | backend/app/payments.py:269-304 | In every state any run reaches, whatever the operator edits or moves, at most one session of a booking can be paid or was, and it is the booking's current one |
| Payments.PaidSessionIsNeverReplaced | backend/app/routers/bookings.py:516-530 | Once the customer paid a session it stays the booking's session, and a recorded payment keeps its moment, through every further run, edits and moves of any kind included |
| Payments.EveryDelivery | backend/app/routers/webhooks.py:133-211 | The first delivery for a paid session records the payment at that moment and confirms the booking exactly if it is in time, or the slot is free and the customer's spendable hours, its own credit aside, cover its share; otherwise the booking is paid_unfulfilled. A delivery for a recorded payment changes nothing |
| Payments.PaymentIsAppliedOnce | backend/app/routers/webhooks.py:128-147 | After a payment is recorded no run whose edits keep the invariant, cancellations and reinstatements included, changes its moment, and every later delivery is ignored |
| Payments.AppliedRemembers | backend/app/routers/webhooks.py:205-211 | No event, edits and moves of any kind included, removes a booking or a session, changes a recorded payment, reopens a closed session, or changes the terms of a booking it does not move |
| Payments.ReconcilingKeepsConflicts | backend/app/booking_validity.py:198-227 | Who holds a slot now is the same before and after lapsed holds are reconciled |
| Payments.EditDropsMoneyExactlyIf | backend/app/routers/admin/bookings.py:432-449 | After an edit from any status to any, a delivery for the booking's paid session is ignored if and only if the status set is confirmed, cancelled, completed or paid_unfulfilled; what was recorded of the payment stays |
| Payments.MoveDropsMoneyExactlyIf | backend/app/routers/admin/bookings.py:432-449 | A move of a booking not yet paid makes its money be ignored if and only if the customer had cancelled it |
| Payments.EditedMoneyIsIgnoredExactlyIf | backend/app/routers/admin/bookings.py:301-449 | The same for an edit that also changes time, room, share or price: whether money that arrives later is ignored depends on the status set alone |
| Scenarios.SettingAStatusCanDropMoney | backend/app/routers/admin/bookings.py:432-449 | Booking and paying is a run after which the operator, by confirming, cancelling or completing the pending booking, makes a real payment be ignored with nothing recorded |
| Scenarios.AnyEditCanDropMoney | backend/app/routers/admin/bookings.py:448-449 | Booking, cancelling and then paying is a run after which an edit that leaves the status as it is does the same |
| Ledgers.WalkIsAffordable | backend/app/package_hours.py:117-135 | A walk overdraws nobody, draws at most once on a purchase, only on spendable ones, and never on the booking's own credit |
| Ledgers.DrawingIsRebase | backend/app/package_hours.py:129-135 | Taking the draws moves every purchase by exactly what its rows move by |
| Ledgers.DrawingAddsHours | backend/app/package_hours.py:195-211 | The booking holds exactly the drawn hours more, every other booking what it held |
| Ledgers.DrawnRows | backend/app/package_hours.py:349-362 | Rows drawn on grow by their draw, no other row changes |
| Ledgers.RebaseKeepsBalance | backend/app/package_hours.py:1-31 | Any change of rows within the balances keeps used = rows, used + remaining = total and balances natural |
| WalkOptimality.WalkTakesAllItCan | backend/app/package_hours.py:117-138 | A walk takes exactly the smaller of what was asked and what is drawable |
| WalkOptimality.WalkIsExpiryOptimal | backend/app/package_hours.py:105-138 | For every deadline, no other way of drawing at most as much leaves fewer hours lapsing by then |
| WalkOptimality.WalkMeetsTheBound | backend/app/package_hours.py:117-135 | Of the hours lapsing by a deadline the walk takes everything drawable, up to what it was asked for |
| WalkOptimality.BankOrderIsSpendingOrder | backend/app/package_hours.py:105-116 | Candidates come once each, soonest expiry first |
| Settlement.ReleasedKeepsBalance | backend/app/package_hours.py:249-266 | Returning every row of a set of bookings keeps the ledger balanced |
| Settlement.ReleasedTwice | backend/app/package_hours.py:249-266 | Releasing in two rounds is releasing once: no hour comes back twice |
| Settlement.DrawnKeepsBalance | backend/app/package_hours.py:269-289 | Taking a share again keeps the ledger balanced and touches only that booking's rows |
| Settlement.RowsAddUp | backend/app/package_hours.py:214-225 | A booking's hours are the sum of its rows listed in draw order |
| Settlement.GivingBackKeepsTheSoonest | backend/app/package_hours.py:312-338 | Giving a surplus back in reverse draw order leaves exactly what a soonest-first take of the rest would have drawn |
| Settlement.KeepFirstSum | backend/app/package_hours.py:312-338 | A soonest-first take keeps the smaller of the request and everything, and grows no row |
| Books.ReleasingKeepsBooks | backend/app/package_hours.py:398-405 | Bookings that stop holding hours, their rows released, leave books that match every status |
| Books.DrawingKeepsBooks | backend/app/package_hours.py:195-211 | Draws for a booking leave books that match, its share included |
| Books.StatusChangeKeepsBooks | backend/app/package_hours.py:381-405 | A settled status change leaves books that match the new status |
| Books.MovingKeepsBooks | backend/app/package_hours.py:292-366 | A move keeps the books in every status, and when it grows a booking the new share plus what the bank could not cover is the old share plus the added length |
| Books.RedebitSparesOwnCredit | backend/app/package_hours.py:120-135 | Taking a booking's share again leaves its own cancellation credit untouched |
| Books.ReinstatingKeepsBooks | backend/app/cancellation_credit.py:121-145 | Books and credits match once a booking holds its hours again and its credit is out of circulation |
| Books.PurchaseKeepsBooks | backend/app/cancellation_credit.py:88-118 | Writing a purchase nobody has drawn on, a credit among them, keeps the books |
| Bank.HourBank.Walk | backend/app/package_hours.py:76-138 | The loop over candidates draws exactly the specified walk and leaves each purchase debited by it |
| Bank.HourBank.Undo | backend/app/package_hours.py:141-147 | Every draw put back on its purchase |
| Bank.UndoingTheWalk | backend/app/package_hours.py:141-147 | Undoing a walk's draws restores every balance |
| Bank.HourBank.RedeemUpTo | backend/app/package_hours.py:150-164 | As much of the request as the walk finds |
| Bank.HourBank.RedeemHours | backend/app/package_hours.py:167-188 | All of the request or nothing: it succeeds exactly if the balance shown covers it, and otherwise every purchase is as before |
| Bank.HourBank.RecordDebits | backend/app/package_hours.py:195-211 | One row per draw for a booking that has none |
| Bank.HourBank.GrowDebits | backend/app/package_hours.py:349-362 | One row per purchase: a purchase already drawn on grows its row |
| Bank.HourBank.ReleaseDebits | backend/app/package_hours.py:249-266 | Row by row every hour goes back to its own purchase, the rows are gone, and the sum returned is what the booking held |
| Bank.HourBank.RedebitBooking | backend/app/package_hours.py:269-289 | The share taken again with its rows, or nothing changed |
| Bank.HourBank.GiveSurplusBack | backend/app/package_hours.py:312-338 | The loop in reverse draw order leaves the rows of a soonest-first take of the new share, and every purchase follows its row |
| Bank.HourBank.SettleMovedBooking | backend/app/package_hours.py:292-366 | The ledger, the share and the uncovered hours of a move; a growing booking's row is written first with its new length and then with its new share, a shrinking one's once, and each write passes the check that the share fits the length |
| Bank.LengthGoesBeforeTheShare | backend/app/package_hours.py:341-345 | Both writes of a growing booking pass the check, while the share written first passes exactly if it still fits the old length, and never on a booking fully on packs that drew more |
| Bank.HourBank.SettleStatusChange | backend/app/package_hours.py:381-405 | Released, taken again, or untouched, as the two statuses say; nothing changed when it fails |
| Bank.HourBank.CreateCredit | backend/app/cancellation_credit.py:75-118 | The one credit row written or brought back, or none, or too large and nothing written |
| Bank.HourBank.ReverseCredit | backend/app/cancellation_credit.py:121-145 | The credit out of circulation, or a refusal that changes nothing |
| BankBalance.RedemptionNeedsTheBalance | backend/app/package_hours.py:423-438 | A walk draws everything the balance shows, up to the request, so an all-or-nothing redemption succeeds exactly when the balance covers it |
| BankBalance.NextExpiryIsTheFirst | backend/app/package_hours.py:423-438 | The balance's next expiry is the first instant any spendable hour lapses, with exactly the hours lapsing then |
| BankBalance.BalanceAfterDrawing | backend/app/package_hours.py:423-438 | After a walk the balance shows exactly the drawn hours less |
| BankBalance.PlanPayment | frontend/lib/paymentSplit.ts:29-66 | The browser's loop finds the walk's hours, packs and remainder |
| BankBalance.PreviewMatchesTheServer | backend/app/routers/bookings.py:225-254 | On the same balances the preview shows the server's pack hours, number of draws, remaining balance and package, mixed or hourly classification |
| Credit.CreditIsExact | backend/app/cancellation_credit.py:54-58 | Hours to cents and back is the identity from 1.00 an hour upwards |
| Credit.CreditIsExactExactlyFromOneAnHour | backend/app/cancellation_credit.py:54-58 | It is the identity on every length if and only if the rate is at least 1.00 an hour |
| Credit.WholeHoursAreExact | backend/app/cancellation_credit.py:54-58 | Whole hours survive the round trip at any rate |
| Refunds.ReleasingFillsTheBank | backend/app/package_hours.py:249-266 | Releasing a booking puts exactly its hours into its customer's bank and nobody else's |
| Refunds.DrawingEmptiesTheBank | backend/app/package_hours.py:117-135 | Draws leave exactly the bank they are made on |
| Refunds.CancellingGivesTheHoursBack | backend/app/booking_cancellation.py:42-77 | Cancelling a confirmed booking that still costs what it did adds exactly its length to the customer's bank, pack share and credit together, with exactly one fresh credit row for the paid hours; nobody else's bank changes |
| VisibleBalance.CancellingRaisesTheBalance | backend/app/booking_cancellation.py:42-77 | The balance the customer is shown rises by the credit and by the part of the pack share that lies on purchases neither lapsed nor withdrawn, and nobody else's changes |
| VisibleBalance.BalanceIsWhatIsLive | backend/app/package_hours.py:423-438 | The balance shown is exactly everything left on the customer's active, unexpired purchases |
| UnmovedBookings.CancellingAnUnmovedBooking | backend/app/routers/bookings.py:213-267 | From creation through any run whose edits keep the invariant and that does not move it: a confirmed booking cancelled in time at its rate adds exactly its length to the customer's purchases, however it was paid, and to the balance shown all of it but what lies on lapsed or withdrawn packs |
| Reinstatement.ReversalNeedsAnUndrawnCredit | backend/app/cancellation_credit.py:121-145 | Taking a credit back is refused exactly while some booking's debit row draws on it; otherwise the whole of it is taken back, or there was none in circulation |
| Reinstatement.ReinstatingTakesTheHoursBack | backend/app/routers/admin/bookings.py:406-433 | With slot and hours there, a reinstatement is refused exactly while some booking draws on the credit; otherwise it takes the share and all of the credit out of the customer's bank and nothing out of anybody else's |
| Reinstatement.CyclesAddNoHours | backend/app/cancellation_credit.py:82-101 | Any number of cancellations and reinstatements, each at its own time, leaves every booking and everybody's bank as they were and reuses the one credit row, unless some hold lapses meanwhile |
| Reconciliation.ReconcilingIsConfluent | backend/app/booking_validity.py:126-195 | Any reconciliations at one instant, in any order, followed by the sweeper, give the sweeper's own statuses, rows and balances |
| Reconciliation.LaterSweepCoversEarlier | backend/app/holds.py:71-92 | An earlier reconciliation changes nothing about a later sweep, and repeating one changes nothing |
| Reconciliation.ReconcilingCommutes | backend/app/booking_validity.py:126-156 | Per-room and per-user reconciliations commute |
| Desks.Desk.ExpireLapsedHolds | backend/app/booking_validity.py:159-195 | The bulk flip and the releases leave the reconciled state and count the flipped rows |
| Desks.Desk.CreateBooking | backend/app/routers/bookings.py:150-327 | Step by step with its rollbacks, the handler leaves exactly the specified state and answer |
| Desks.Desk.ConfirmBooking | backend/app/routers/webhooks.py:105-211 | Step by step with its savepoint, the handler leaves exactly the specified state and answer |
| Desks.Desk.ExpirePendingHold | backend/app/routers/webhooks.py:32-58 | The hold of the session let go, or nothing |
| Desks.Desk.ResumeCheckout | backend/app/routers/bookings.py:453-572 | Step by step with its rollbacks and its calls to the provider, the handler leaves exactly the specified state and answer |
| Desks.Desk.CancelBooking | backend/app/booking_cancellation.py:13-77 | Guard, status, hours and credit, or a rollback |
| Desks.Desk.SweepOnce | backend/app/holds.py:42-92 | One tick reconciles every lapsed hold, gives up every pack purchase that has awaited payment since before the cutoff, and answers how many rows both flipped; or it skips |
| ConcurrentBank.EveryInterleavingIsSafe | backend/app/package_hours.py:96-138 | Under every interleaving of walks, releases, shrinks, reversals of credits, commits and rollbacks the committed books stay balanced, no transaction sees a negative balance, no lock is held twice, and nothing is ever drawn from a credit taken out of circulation, although candidates are read unlocked |
| ConcurrentBank.CommittingKeepsBalance | backend/app/package_hours.py:16-31 | A commit moves every purchase by exactly what its rows moved by, takes out of circulation only credits nobody has spent, and overdraws nobody |
| ConcurrentBank.OthersStillFit | backend/app/package_hours.py:51-64 | No other transaction notices a commit |
| ConcurrentBank.NoWaitCycle | backend/app/package_hours.py:98-102 | Transactions of one walk, release, shrink or reversal each never wait for each other in a circle, whatever else runs |
| ConcurrentBank.AloneItIsTheWalk | backend/app/package_hours.py:117-135 | With nobody in between, the statement-by-statement walk draws exactly what the sequential walk does |
| Zones.ClockReaches | backend/app/booking_validity.py:274-284 | A zone's clock has reached a whole hour exactly from the instant that reading is first taken to denote |
| Zones.HourOccurs | backend/app/booking_validity.py:254-286 | An hour is shown never, once or twice in a row, and its two fold readings name those showings |
| OpeningHours.LocalHourlySlots | backend/app/booking_validity.py:254-286 | The loop over hours and folds lists exactly the specified slots |
| OpeningHours.SlotsAreOneRun | backend/app/booking_validity.py:254-286 | A whole-hour window's slots are one run of consecutive one-hour slots, from its first instant to its last |
| OpeningHours.SlotsCoverExactlyTheOpenTime | backend/app/booking_validity.py:254-286 | They cover exactly the instants at which the local clock is inside the window |
| OpeningHours.SlotCount | backend/app/booking_validity.py:263-272 | One slot fewer across a skipped hour, one more across a repeated one, else one per hour |
| OpenWindow.IsWithinOpenHours | backend/app/booking_validity.py:305-345 | The check accepts exactly the aligned, non-empty intervals whose every hour is an open slot of its local day and into which no off-hour slot reaches |
| OpenWindow.SlotsOfDay | backend/app/booking_validity.py:289-302 | The slots of a local day, over any number of rules |
| OpenWindow.WholeHourRulesDecide | backend/app/booking_validity.py:305-345 | With whole-hour rules: accepted if and only if hour-aligned, non-empty, and every hour open, across midnights and clock changes |
| OpenWindow.OpenHourReadsTheClock | backend/app/booking_validity.py:289-302 | With whole-hour rules an hour is open exactly when the local clock is inside some active window of that weekday |
| OpenWindow.SlotsFallOnTheirDay | backend/app/booking_validity.py:330-336 | A slot is listed under the local day it falls on and no other |
| WallClock.WallToUtcIsFirstReading | frontend/lib/spaceClock.ts:55-68 | The browser's choice among nearby offsets is the fold-0 reading the server's slots start with |
| WallClock.RoundTrip | frontend/lib/spaceClock.ts:42-68 | Reading back gives the same wall time whenever it exists, and of several instants the first is chosen |
| WallClock.SkippedTime | frontend/lib/spaceClock.ts:55-68 | A skipped wall time is read as the same time elapsed after the jump |
| Availability.ListSlots | backend/app/routers/spaces.py:148-248 | Each open hour of the days once, in order, with the one reason it is not available; a range past the window is refused |
| Availability.ListedSlotsAreBookable | backend/app/routers/spaces.py:223-239 | Under any rules, a booking of a listed hour passes every time check at the same instant exactly when the listing gives no reason against it, it starts on the hour, and no open slot off the hour reaches into it |
| Availability.AvailableSlotsAreBookable | backend/app/routers/spaces.py:223-239 | With whole-hour rules a listed slot is available exactly when booking that hour passes every time check |
| Availability.BookableHoursAreListed | backend/app/routers/spaces.py:175-186 | Under any rules, no bookable hour is missing from the listing of its day |
| Availability.RefusedDaysHoldNothingBookable | backend/app/routers/spaces.py:152-161 | Nothing on a refused day could be booked |
| Recurrence.ExpandOccurrences | backend/app/routers/recurrences.py:59-83 | The cursor loop lists exactly the specified expansion |
| Recurrence.ExpansionIsEveryWeekUntil | backend/app/routers/recurrences.py:78-82 | The expansion holds exactly the weekly repetitions dated no later than the end date |
| Recurrence.ExpandWeeklyOccurrences | frontend/lib/recurrence.ts:26-41 | The browser's loop, with its cap, lists the expansion's starts, or nothing when there are too many |
| Recurrence.PreviewMatchesTheServer | frontend/lib/recurrence.ts:11-41 | The preview shows exactly the series the server would create, and shows none exactly for an end before the start or too many occurrences, which the server refuses |
| Recurrence.AcceptedWindow | backend/app/routers/recurrences.py:177-220 | An accepted window holds 1 to 104 disjoint occurrences: the weekly repetitions still to come |
| Series.SeriesIsAllOrNothing | backend/app/routers/recurrences.py:302-364 | A series is booked whole, or refused with nothing changed, reporting exactly the occurrences that overlap a slot-holding booking; alone it never trips the constraint, and the invariant holds |
| Series.BookedSeries | backend/app/routers/recurrences.py:223-255 | One pending row per occurrence, pairwise disjoint, every other booking as it was but for lapsed holds |
| Series.SeriesEditIsAllOrNothing | backend/app/routers/recurrences.py:376-461 | An edit is booked exactly if the series was not cancelled, its window is valid, no occurrence it replaces starts too soon or has a credit too large, and no new time overlaps anybody else's slot, its own future rows aside; otherwise nothing changes |
| Series.EditedSeries | backend/app/routers/recurrences.py:409-449 | An edit never touches rows already started or over, cancels the rest, each with the credit it leaves, and books the new occurrences; no pack hours move |
| Series.CancellingAnOccurrence | backend/app/booking_cancellation.py:42-77 | Cancelling an occurrence moves no pack hours; one still pending leaves no credit, one the operator had confirmed leaves exactly one, of what its price buys, or the cancellation is refused whole when that is more than a row holds |
| Series.CancelSeriesIsAllOrNothing | backend/app/routers/recurrences.py:490-518 | Cancelling the rest of a series cancels every remaining occurrence, each with the credit it leaves, exactly if none starts too soon and no credit is too large; otherwise nothing changes |
| Payments.CancelledSeriesStaysCancelled | backend/app/routers/recurrences.py:393-398 | Whatever happens after a series was cancelled, no edit of it is accepted again |
| RateLimit.SlidingLimiter.Check | backend/app/ratelimit.py:135-161 | The deque loop gives the specified verdict and log, for this client only |
| RateLimit.SlidingWindowHolds | backend/app/ratelimit.py:121-161 | In every window of its length at most the limit of a client's requests get through |
| RateLimit.RefusalIsEarnedAndAdviceExact | backend/app/ratelimit.py:149-158 | A request is refused exactly when the window before it holds the limit, and retry_after is the least whole number of seconds after which a lone retry gets through |
| FixedWindow.CounterTable.Count | backend/app/ratelimit.py:174-183 | One statement of any process counts one request: that client's counters go on being those of the run of everything any process did to the table, every other client's theirs, and the run lets it through exactly when its count is within the limit |
| FixedWindow.CounterTable.CleanUp | backend/app/ratelimit.py:184-189 | A cleanup by any process, at any moment, keeps every client's counters those of its run and lets nobody through |
| FixedWindow.FixedWindowLimiter.Check | backend/app/ratelimit.py:215-247 | On a table shared with other processes, with a cleanup deadline of its own: the client's counters go on being those of the run of its requests and every process's cleanups, every other client's theirs whatever their windows, and the request gets through exactly when that run lets it through |
| FixedWindow.FixedWindowHolds | backend/app/ratelimit.py:191-206 | No fixed window lets more than the limit through |
| FixedWindow.AnyIntervalHoldsTwice | backend/app/ratelimit.py:201-205 | Any interval as long as the window lets at most twice the limit through |
| FixedWindow.CleanupIsHarmlessUpToTwoHours | backend/app/ratelimit.py:184-188 | The cleanup forgets nothing that still counts if and only if no window is longer than two hours |
| FixedWindow.FixedAdviceIsExact | backend/app/ratelimit.py:243-246 | retry_after is the least whole number of seconds after which a lone retry gets through |

## Left out
- HTTP, validation, membership and tenancy checks, ORM mechanics, emails, access codes, audit: no arithmetic or state of their own.
- The operator's other paths (manual bookings, price overrides on their own, mark-paid, purchase edits, deletions): runs contain the operator's status edits, moves, pack grants and room blocks.
- An edit that moves a booking and sets its status in one request: the two are separate requests here, except in Payments.EditedMoneyIsIgnoredExactlyIf.
- Runs.RunKeepsInv: the runs it speaks of leave out exactly the edits and moves that Preservation.EditKeepsInvExactlyIf and Preservation.MoveKeepsInvExactlyIf show to break the payment fields or strand a credit; Runs.EveryRunKeepsTheBooks, Conservation.EveryRunConservesHours, Payments.OnePayableSession and Payments.PaidSessionIsNeverReplaced leave none out.
- Payments.PaymentIsAppliedOnce: speaks of the same runs as Runs.RunKeepsInv, so of none that sets a paid booking back to pending or expired; after such an edit a repeated delivery is handled again, by Payments.EditDropsMoneyExactlyIf, and the recorded moment stays, by Payments.PaidSessionIsNeverReplaced.
- UnmovedBookings.CancellingAnUnmovedBooking: speaks of the same runs too; where an edit stranded the booking's credit, cancelling it again does not write another.
- Purchase rows are never deleted and their expiry never changes, so the branches for a missing purchase row do not arise in the class; the sequence in which rows are inserted is not modelled either.
- Live provider networking: a session is open, closed or paid, ids are unique, and each call may fail where the handler catches it. The stub's reuse of session ids is not modelled.
- The session a refused insert leaves behind at the provider and the attempt to expire it (the last flush of a booking): run one at a time that flush never fails.
- Checkout of pack purchases: a pack awaiting payment is paid or given up in one step, and late money for one that was given up is not honoured, as in the code.
- Settings (hold lifetime, booking window, longest booking, cancellation notice, credit validity, checkout lifetime of packs) are constants at their defaults.
- Desks.Desk: its handlers run one at a time; what interleaving does is proved of the ledger alone, in ConcurrentBank.
- Deadlock freedom beyond single operations: sweeps and multi-booking transactions take purchase locks out of order across bookings, and transactions of several operations are excluded from ConcurrentBank.NoWaitCycle by its condition.
- In ConcurrentBank a released row is deleted together with its credit; the program deletes a booking's rows after crediting all of them, which nobody else can tell apart while the booking is locked.
- In ConcurrentBank credits are taken out but not written: new credits, and credits brought back, are covered by the sequential handlers only.
- The exclusion constraint and the room lock of series under concurrency: the constraint itself arbitrates there, and it is modelled as a check on each write.
- The rounding of a series occurrence's length and price, which goes through floating point: both are parameters of the series.
- PlanPayment in floating point: balances in hundredths are integers here, so rounding noise of the browser's numbers is not modelled; parsing of its dates and the locale order of ids (taken as the server's id order) are not either.
- The limiters' clocks: one client's requests are judged in nondecreasing time, the limit is at least 1 for the sliding log (it has no defined answer for less), and the store's outages, client identity and tiers are left out.
- Zones with half-hour offsets, changes off the hour, or changes closer than 48 hours.
- Billing sums, tax numbers, photo order, schema closure, the static site and all interface code: easy members.
