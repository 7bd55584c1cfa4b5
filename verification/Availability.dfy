/** The public listing of a room's slots, and what it promises about booking them. */
module Availability {
  import opened Model
  import opened Zones
  import opened OpeningHours
  import opened OpenWindow
  import opened Books
  import opened Lifecycle
  import opened Payments

  datatype SlotReason = Past | BeyondWindow | Booked | Blocked

  datatype AvailableSlot = AvailableSlot(start: int, reason: Option<SlotReason>)

  /** Why the hour from `start` cannot be booked, as far as the listing says. */
  predicate GivesReason(s: State, room: RoomId, start: int, now: int, reason: Option<SlotReason>) {
    reason ==
      if start < now then Some(Past)
      else if start > now + BOOKING_WINDOW then Some(BeyondWindow)
      else if BookedOver(s.bookings, room, start, start + HOUR, None, now) then Some(Booked)
      else if BlockedOver(s.blocks, room, start, start + HOUR) then Some(Blocked)
      else None
  }

  ghost predicate ListedOn(rules: seq<Rule>, z: Zone, days: seq<int>, t: int) {
    exists i :: 0 <= i < |days| && ListedSlot(rules, z, days[i], t)
  }

  /** Bookings that hold a slot of the room in the listed span. */
  function Busy(bookings: BookingTable, room: RoomId, start: int, end: int, now: int): set<BookingId> {
    set b | b in bookings && bookings[b].room == room && HoldsSlot(bookings[b], now)
            && Overlap(bookings[b].start, bookings[b].end, start, end)
  }

  function BlocksOver(blocks: set<Block>, room: RoomId, start: int, end: int): set<Block> {
    set k | k in blocks && k.room == room && Overlap(k.start, k.end, start, end)
  }

  /** `slots` lists every open hour of `days` once, in time order, each with
      the one reason it is not available, if any. */
  ghost predicate IsListing(s: State, cal: Calendar, room: RoomId, days: seq<int>, now: int, slots: seq<AvailableSlot>) {
    && (forall i, j | 0 <= i < j < |slots| :: slots[i].start < slots[j].start)
    && (forall t :: ListedOn(RulesOf(cal, room), ZoneOf(cal, room), days, t)
                    <==> exists i :: 0 <= i < |slots| && slots[i].start == t)
    && (forall i | 0 <= i < |slots| :: GivesReason(s, room, slots[i].start, now, slots[i].reason))
  }

  /** A range of days that runs past the booking window is refused whole. */
  method ListSlots(s: State, cal: Calendar, room: RoomId, days: seq<int>, now: int)
    returns (listing: Option<seq<AvailableSlot>>)
    requires days != []
    ensures listing == None <==> days[|days| - 1] > LocalDay(ZoneOf(cal, room), now + BOOKING_WINDOW)
    ensures listing.Some? ==> IsListing(s, cal, room, days, now, listing.value)
  {
    hide ListedSlot, Sorted, BookedOver, BlockedOver, ZoneOf, RulesOf, LocalDay;
    var rules, z := RulesOf(cal, room), ZoneOf(cal, room);
    if days[|days| - 1] > LocalDay(z, now + BOOKING_WINDOW) {
      return None;
    }
    var hourly: set<int> := {};
    for i := 0 to |days|
      invariant forall t :: t in hourly <==> exists j :: 0 <= j < i && ListedSlot(rules, z, days[j], t)
    {
      var more := SlotsOfDay(rules, z, days[i]);
      hourly := hourly + more;
    }
    var starts := Sorted(hourly);
    assert forall t :: ListedOn(rules, z, days, t) <==> t in starts;
    if starts == [] {
      return Some([]);
    }
    var dayStart, dayEnd := starts[0], starts[|starts| - 1] + HOUR;
    var busy := Busy(s.bookings, room, dayStart, dayEnd, now);
    var blocked := BlocksOver(s.blocks, room, dayStart, dayEnd);
    var slots: seq<AvailableSlot> := [];
    for i := 0 to |starts|
      invariant |slots| == i
      invariant forall j | 0 <= j < i :: slots[j].start == starts[j]
      invariant forall j | 0 <= j < i :: GivesReason(s, room, slots[j].start, now, slots[j].reason)
    {
      var start := starts[i];
      NarrowingLosesNothing(s, room, dayStart, dayEnd, start, now);
      var reason :=
        if start < now then Some(Past)
        else if start > now + BOOKING_WINDOW then Some(BeyondWindow)
        else if exists b | b in busy :: Overlap(s.bookings[b].start, s.bookings[b].end, start, start + HOUR) then Some(Booked)
        else if exists k | k in blocked :: Overlap(k.start, k.end, start, start + HOUR) then Some(Blocked)
        else None;
      slots := slots + [AvailableSlot(start, reason)];
    }
    forall t ensures ListedOn(rules, z, days, t) <==> exists i :: 0 <= i < |slots| && slots[i].start == t {
      if t in starts {
        var i :| 0 <= i < |starts| && starts[i] == t;
        assert slots[i].start == t;
      }
    }
    return Some(slots);
  }

  lemma NarrowingLosesNothing(s: State, room: RoomId, dayStart: int, dayEnd: int, start: int, now: int)
    requires dayStart <= start && start + HOUR <= dayEnd
    ensures BookedOver(s.bookings, room, start, start + HOUR, None, now)
            <==> exists b | b in Busy(s.bookings, room, dayStart, dayEnd, now) ::
                   Overlap(s.bookings[b].start, s.bookings[b].end, start, start + HOUR)
    ensures BlockedOver(s.blocks, room, start, start + HOUR)
            <==> exists k | k in BlocksOver(s.blocks, room, dayStart, dayEnd) :: Overlap(k.start, k.end, start, start + HOUR)
  {
    if BookedOver(s.bookings, room, start, start + HOUR, None, now) {
      var b :| b in s.bookings && s.bookings[b].room == room && HoldsSlot(s.bookings[b], now)
               && Overlap(s.bookings[b].start, s.bookings[b].end, start, start + HOUR);
      assert b in Busy(s.bookings, room, dayStart, dayEnd, now);
    }
    if BlockedOver(s.blocks, room, start, start + HOUR) {
      var k :| k in s.blocks && k.room == room && Overlap(k.start, k.end, start, start + HOUR);
      assert k in BlocksOver(s.blocks, room, dayStart, dayEnd);
    }
  }

  // ---- listing and booking agree ---------------------------------------------------------

  /** Everything create_booking asks of the time of a request. */
  ghost predicate TimeAccepted(s: State, cal: Calendar, room: RoomId, start: int, end: int, now: int) {
    && TimeRefusal(cal, room, start, end, now).None?
    && !Conflict(Reconciled(s, RoomWindow(room, start, end), now), room, start, end, None, now)
  }

  /** An hour is accepted exactly when it is open, on the hour, and no open slot
      off the hour reaches into it. */
  lemma OneHourIsOneSlot(rules: seq<Rule>, z: Zone, start: int)
    ensures WithinOpenHours(rules, z, start, start + HOUR)
            <==> WholeHour(start) && OpenHour(rules, z, start) && !OffHourSlotInside(rules, z, start, start + HOUR)
  {
    hide OpenHour, OffHourSlotInside;
    var end := start + HOUR;
    assert OnGrid(start, end, start);
    assert forall s | OnGrid(start, end, s) :: s == start;
    assert WholeHour(start) <==> WholeHour(end);
  }

  /** With whole-hour rules no open slot lies off the hour. */
  lemma WholeHourRulesHaveNoOffHourSlots(rules: seq<Rule>, z: Zone, start: int)
    requires Valid(z) && WholeHourRules(rules)
    ensures OpenHour(rules, z, start) ==> WholeHour(start)
    ensures WholeHour(start) ==> !OffHourSlotInside(rules, z, start, start + HOUR)
  {
    if OpenHour(rules, z, start) {
      var i :| 0 <= i < |rules| && Opens(rules[i], z, LocalDay(z, start), start);
      WholeWindow(z, LocalDay(z, start), rules[i], start);
    }
    WholeHourRulesDecide(rules, z, start, start + HOUR);
    if WholeHour(start) && OffHourSlotInside(rules, z, start, start + HOUR) {
      hide OffsetAt, WallOffset;
      var day, s :| LocalDay(z, start) <= day <= LocalDay(z, start + HOUR - 1) && s < start + HOUR && s + HOUR > start
                    && ListedSlot(rules, z, day, s) && !WholeHour(s);
      var i :| 0 <= i < |rules| && Opens(rules[i], z, day, s);
      WholeWindow(z, day, rules[i], s);
    }
  }

  /** A listed slot is one a booking of that hour is accepted for, at the same
      instant, exactly when the listing gives no reason against it, it starts on
      the hour, and no open slot off the hour reaches into it. */
  lemma ListedSlotsAreBookable(s: State, cal: Calendar, room: RoomId, day: int, start: int, now: int,
                               reason: Option<SlotReason>)
    requires ListedSlot(RulesOf(cal, room), ZoneOf(cal, room), day, start)
    requires GivesReason(s, room, start, now, reason)
    ensures TimeAccepted(s, cal, room, start, start + HOUR, now)
            <==> reason == None && WholeHour(start)
                 && !OffHourSlotInside(RulesOf(cal, room), ZoneOf(cal, room), start, start + HOUR)
  {
    hide WithinOpenHours, OpenHour, ListedSlot, ZoneOf, RulesOf, Reconciled, BookedOver, BlockedOver, OffHourSlotInside;
    ListedIsOpen(RulesOf(cal, room), ZoneOf(cal, room), day, start);
    OneHourIsOneSlot(RulesOf(cal, room), ZoneOf(cal, room), start);
    ReconcilingKeepsConflicts(s, RoomWindow(room, start, start + HOUR), room, start, start + HOUR, None, now);
  }

  lemma ListedIsOpen(rules: seq<Rule>, z: Zone, day: int, start: int)
    requires ListedSlot(rules, z, day, start)
    ensures OpenHour(rules, z, start)
  {
    SlotsFallOnTheirDay(rules, z, day, start);
  }

  /** So with whole-hour rules every slot the listing calls available can be booked. */
  lemma AvailableSlotsAreBookable(s: State, cal: Calendar, room: RoomId, day: int, start: int, now: int,
                                  reason: Option<SlotReason>)
    requires Valid(ZoneOf(cal, room)) && WholeHourRules(RulesOf(cal, room))
    requires ListedSlot(RulesOf(cal, room), ZoneOf(cal, room), day, start)
    requires GivesReason(s, room, start, now, reason)
    ensures TimeAccepted(s, cal, room, start, start + HOUR, now) <==> reason == None
  {
    hide *;
    ListedSlotsAreBookable(s, cal, room, day, start, now, reason);
    ListedIsOpen(RulesOf(cal, room), ZoneOf(cal, room), day, start);
    WholeHourRulesHaveNoOffHourSlots(RulesOf(cal, room), ZoneOf(cal, room), start);
  }

  /** And no hour that could be booked is missing from the listing of its day,
      whatever the rules. */
  lemma BookableHoursAreListed(s: State, cal: Calendar, room: RoomId, start: int, now: int)
    requires TimeAccepted(s, cal, room, start, start + HOUR, now)
    ensures ListedSlot(RulesOf(cal, room), ZoneOf(cal, room), LocalDay(ZoneOf(cal, room), start), start)
  {
    hide WithinOpenHours, ListedSlot, ZoneOf, RulesOf, Reconciled, BookedOver, BlockedOver, LocalDay, OffHourSlotInside;
    OneHourIsOneSlot(RulesOf(cal, room), ZoneOf(cal, room), start);
  }

  /** Nothing on a day the listing refuses could be booked. */
  lemma RefusedDaysHoldNothingBookable(s: State, cal: Calendar, room: RoomId, day: int, start: int, now: int)
    requires Valid(ZoneOf(cal, room)) && day > LocalDay(ZoneOf(cal, room), now + BOOKING_WINDOW)
    requires LocalDay(ZoneOf(cal, room), start) >= day
    ensures !TimeAccepted(s, cal, room, start, start + HOUR, now)
  {
    hide IsOpen, Conflict, Reconciled, Valid, LocalDay, ZoneOf;
    if start <= now + BOOKING_WINDOW {
      LocalDayIsMonotonic(ZoneOf(cal, room), start, now + BOOKING_WINDOW);
    }
  }
}
