/** A time zone as its offset changes, latest outermost, and the two directions
    of its clock: instant to wall clock, and wall clock to instant as PEP 495
    defines it (`fold` 0 reads an ambiguous time as its first occurrence,
    `fold` 1 as its second). */
module Zones {
  import opened Model

  /** `Change(earlier, at, offset)` is the zone `earlier` until instant `at`,
      and `offset` ahead of UTC from then on. */
  datatype Zone = Fixed(offset: int) | Change(earlier: Zone, at: int, offset: int)

  predicate WholeHour(t: int) {
    t % HOUR == 0
  }

  lemma WholeHoursApart(a: int, b: int)
    requires WholeHour(a) && WholeHour(b) && a < b
    ensures a + HOUR <= b
  {
  }

  predicate PlausibleOffset(offset: int) {
    WholeHour(offset) && -15 * HOUR <= offset <= 15 * HOUR
  }

  /** Whole-hour offsets that change on the hour, by an hour at most, and not
      twice within 48 hours. */
  predicate Valid(z: Zone) {
    match z
    case Fixed(offset) => PlausibleOffset(offset)
    case Change(e, at, offset) =>
      && Valid(e)
      && WholeHour(at) && PlausibleOffset(offset)
      && -HOUR <= offset - e.offset <= HOUR
      && (e.Change? ==> at - e.at >= 2 * DAY)
  }

  // ---- instant to wall clock -------------------------------------------------

  function OffsetAt(z: Zone, instant: int): int {
    match z
    case Fixed(offset) => offset
    case Change(e, at, offset) => if instant >= at then offset else OffsetAt(e, instant)
  }

  /** What the zone's clock shows at `instant`. */
  function Local(z: Zone, instant: int): int {
    instant + OffsetAt(z, instant)
  }

  /** The local calendar day, counted from the epoch. */
  function LocalDay(z: Zone, instant: int): int {
    Local(z, instant) / DAY
  }

  // ---- wall clock to instant -------------------------------------------------

  /** The offset a wall-clock reading is taken to have. A change is in force on
      the wall once the clock has passed both readings it jumps between
      (`fold` 0), or either of them (`fold` 1). */
  function WallOffset(z: Zone, wall: int, fold: int): int {
    match z
    case Fixed(offset) => offset
    case Change(e, at, offset) =>
      var switch := at + if fold == 0 then Max(e.offset, offset) else Min(e.offset, offset);
      if wall >= switch then offset else WallOffset(e, wall, fold)
  }

  function Instant(z: Zone, wall: int, fold: int): int {
    wall - WallOffset(z, wall, fold)
  }

  // ---- what connects the two ---------------------------------------------------

  lemma {:induction false} OffsetsArePlausible(z: Zone, t: int, fold: int)
    requires Valid(z)
    ensures PlausibleOffset(OffsetAt(z, t)) && PlausibleOffset(WallOffset(z, t, fold))
  {
    if z.Change? {
      OffsetsArePlausible(z.earlier, t, fold);
    }
  }

  /** Well after its last change a zone is just that change's offset. */
  lemma AfterLastChange(z: Zone, wall: int)
    requires Valid(z)
    requires z.Change? ==> wall >= z.at + 16 * HOUR
    ensures WallOffset(z, wall, 0) == z.offset == WallOffset(z, wall, 1)
  {
  }

  /** The clock has reached the whole hour `wall` exactly from the instant that
      reading is first taken to denote. */
  lemma {:induction false} ClockReaches(z: Zone, wall: int, instant: int)
    requires Valid(z) && WholeHour(wall)
    ensures wall <= Local(z, instant) <==> Instant(z, wall, 0) <= instant
  {
    if z.Change? {
      var e, at := z.earlier, z.at;
      // Up to the change the old offset is in force.
      AfterLastChange(e, at + e.offset);
      ClockReaches(e, at + e.offset, instant);
      ClockReaches(e, wall, instant);
      if instant >= at && wall < at + Max(e.offset, z.offset) {
        ClockReaches(e, wall, at);
        ReachedAtTheChange(z, wall);
      }
    }
  }

  /** Before the later of its two readings a change has already been reached. */
  lemma ReachedAtTheChange(z: Zone, wall: int)
    requires z.Change? && Valid(z) && WholeHour(wall) && wall < z.at + Max(z.earlier.offset, z.offset)
    requires wall <= Local(z.earlier, z.at) <==> Instant(z.earlier, wall, 0) <= z.at
    ensures wall <= z.at + z.offset
    ensures Instant(z.earlier, wall, 0) <= z.at
  {
    WholeHoursApart(wall, z.at + Max(z.earlier.offset, z.offset));
    assert OffsetAt(z.earlier, z.at) == z.earlier.offset;
  }

  lemma WholeReadings(z: Zone, wall: int)
    requires Valid(z) && WholeHour(wall)
    ensures WholeHour(Instant(z, wall, 0))
  {
    OffsetsArePlausible(z, wall, 0);
    hide WallOffset, OffsetAt;
  }

  /** How often the clock shows the hour that starts at `wall`: 0, 1 or 2 times. */
  function Occurrences(z: Zone, wall: int): int {
    (Instant(z, wall + HOUR, 0) - Instant(z, wall, 0)) / HOUR
  }

  /** An hour is skipped, shown once, or shown twice in a row; `fold` 0 and 1
      read its first and its second showing, and the readings of a skipped hour
      denote instants at which the clock shows something else. */
  ghost predicate HourShown(z: Zone, wall: int) {
    var first, second := Instant(z, wall, 0), Instant(z, wall, 1);
    var n := Occurrences(z, wall);
    && 0 <= n <= 2
    && Instant(z, wall + HOUR, 0) == first + n * HOUR
    && second == first + (n - 1) * HOUR
    && (n == 0 <==> Local(z, first) != wall)
    && (n == 0 <==> Local(z, second) != wall)
  }

  lemma {:induction false} HourOccurs(z: Zone, wall: int)
    requires Valid(z) && WholeHour(wall)
    ensures HourShown(z, wall)
  {
    match z
    case Fixed(_) =>
    case Change(e, at, offset) =>
      if wall < at + Min(e.offset, offset) {
        HourOccurs(e, wall);
        BeforeTheChange(z, wall);
      } else if wall < at + Max(e.offset, offset) {
        AtTheChange(z, wall);
      }
  }

  /** Readings an hour or more before a change are those of the zone without it. */
  lemma BeforeTheChange(z: Zone, wall: int)
    requires z.Change? && Valid(z) && WholeHour(wall) && HourShown(z.earlier, wall)
    requires wall < z.at + Min(z.earlier.offset, z.offset)
    ensures HourShown(z, wall) && Occurrences(z, wall) == Occurrences(z.earlier, wall)
  {
    SameReadings(z, wall);
    hide WholeHour, Valid, WallOffset;
  }

  lemma SameReadings(z: Zone, wall: int)
    requires z.Change? && Valid(z) && WholeHour(wall) && HourShown(z.earlier, wall)
    requires wall < z.at + Min(z.earlier.offset, z.offset)
    ensures Instant(z, wall, 0) == Instant(z.earlier, wall, 0) < z.at
    ensures Instant(z, wall, 1) == Instant(z.earlier, wall, 1) < z.at
    ensures Instant(z, wall + HOUR, 0) == Instant(z.earlier, wall + HOUR, 0)
  {
    hide *;
    WholeHoursAround(z, wall);
    ReadingsUpToTheChange(z, wall);
    ReadingsEndByTheChange(z, wall);
  }

  lemma WholeHoursAround(z: Zone, wall: int)
    requires z.Change? && Valid(z) && WholeHour(wall) && wall < z.at + Min(z.earlier.offset, z.offset)
    ensures WholeHour(wall + HOUR) && wall + HOUR <= z.at + Min(z.earlier.offset, z.offset)
    ensures Valid(z.earlier)
  {
    WholeHoursApart(wall, z.at + Min(z.earlier.offset, z.offset));
  }

  /** Up to the earlier reading of a change, it is not on the wall yet. */
  lemma ReadingsUpToTheChange(z: Zone, wall: int)
    requires z.Change? && Valid(z) && wall + HOUR <= z.at + Min(z.earlier.offset, z.offset)
    ensures Instant(z, wall, 0) == Instant(z.earlier, wall, 0)
    ensures Instant(z, wall, 1) == Instant(z.earlier, wall, 1)
    ensures Instant(z, wall + HOUR, 0) == Instant(z.earlier, wall + HOUR, 0)
  {
    if z.earlier.offset == z.offset {
      AfterLastChange(z.earlier, z.at + z.offset);
    }
    hide WholeHour;
  }

  lemma JustBeforeTheChange(z: Zone)
    requires z.Change? && Valid(z)
    ensures Local(z.earlier, z.at - HOUR) == z.at - HOUR + z.earlier.offset
    ensures Local(z.earlier, z.at) == z.at + z.earlier.offset
  {
    hide WholeHour;
  }

  lemma ReadingsEndByTheChange(z: Zone, wall: int)
    requires z.Change? && Valid(z) && Valid(z.earlier) && WholeHour(wall) && WholeHour(wall + HOUR)
    requires HourShown(z.earlier, wall)
    requires wall + HOUR <= z.at + Min(z.earlier.offset, z.offset)
    ensures Instant(z.earlier, wall, 0) < z.at && Instant(z.earlier, wall, 1) < z.at
  {
    hide Valid, WholeHour, Instant, Local, Occurrences;
    JustBeforeTheChange(z);
    ClockReaches(z.earlier, wall, z.at - HOUR);
    ClockReaches(z.earlier, wall + HOUR, z.at);
  }

  /** The hour the clock jumps over, or falls back into. */
  lemma AtTheChange(z: Zone, wall: int)
    requires z.Change? && Valid(z) && WholeHour(wall)
    requires z.at + Min(z.earlier.offset, z.offset) <= wall < z.at + Max(z.earlier.offset, z.offset)
    ensures HourShown(z, wall)
  {
    var e, at := z.earlier, z.at;
    WholeHoursApart(wall, at + Max(e.offset, z.offset));
    AfterLastChange(e, wall);
    hide WholeHour;
    assert OffsetAt(e, at - HOUR) == e.offset;
  }

  // ---- how rare the odd hours are -------------------------------------------------

  /** An hour that is skipped or shown twice lies at some change. */
  lemma {:induction false} OddHoursLieAtChanges(z: Zone, wall: int)
    requires Valid(z) && WholeHour(wall) && Occurrences(z, wall) != 1
    ensures z.Change? && wall <= z.at + z.offset
    ensures wall < z.at + Min(z.earlier.offset, z.offset) ==> Occurrences(z.earlier, wall) != 1
    ensures wall >= z.at + Min(z.earlier.offset, z.offset) ==> wall == z.at + Min(z.earlier.offset, z.offset)
  {
    HourOccurs(z, wall);
    if z.Change? {
      WholeHoursApart(wall, z.at + Max(z.earlier.offset, z.offset));
      if wall < z.at + Min(z.earlier.offset, z.offset) {
        HourOccurs(z.earlier, wall);
        BeforeTheChange(z, wall);
      }
    }
  }

  lemma {:induction false} OddHoursAreFarApart(z: Zone, first: int, second: int)
    requires Valid(z) && WholeHour(first) && WholeHour(second) && first < second
    requires Occurrences(z, first) != 1 && Occurrences(z, second) != 1
    ensures second - first >= 46 * HOUR
  {
    OddHoursLieAtChanges(z, first);
    OddHoursLieAtChanges(z, second);
    if second < z.at + Min(z.earlier.offset, z.offset) {
      OddHoursAreFarApart(z.earlier, first, second);
    } else {
      OddHoursLieAtChanges(z.earlier, first);
    }
  }

  /** The local day has reached `day` exactly from its first midnight on. */
  lemma DayReached(z: Zone, day: int, t: int)
    requires Valid(z)
    ensures day <= LocalDay(z, t) <==> Instant(z, day * DAY, 0) <= t
  {
    hide *;
    MidnightsAreWhole(day);
    ClockReaches(z, day * DAY, t);
    DayIs(z, day, t);
  }

  lemma MidnightsAreWhole(day: int)
    ensures WholeHour(day * DAY)
  {
    assert day * DAY == (day * 24) * HOUR;
  }

  lemma DayIs(z: Zone, day: int, t: int)
    ensures day <= LocalDay(z, t) <==> day * DAY <= Local(z, t)
  {
    hide Local;
  }

  /** The local day never runs backwards. */
  lemma LocalDayIsMonotonic(z: Zone, t: int, t': int)
    requires Valid(z) && t <= t'
    ensures LocalDay(z, t) <= LocalDay(z, t')
  {
    var day := LocalDay(z, t);
    DayReached(z, day, t);
    DayReached(z, day, t');
  }
}
