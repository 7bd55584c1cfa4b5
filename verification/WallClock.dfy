/** The browser's reading of a wall-clock time: which instant it denotes. */
module WallClock {
  import opened Model
  import opened Zones

  function Smallest(xs: seq<int>): int
    requires xs != []
  {
    if |xs| == 1 then xs[0] else Min(xs[0], Smallest(xs[1..]))
  }

  /** Every offset the zone uses around that day. */
  function NearbyOffsets(z: Zone, wall: int): seq<int> {
    [OffsetAt(z, wall - DAY), OffsetAt(z, wall), OffsetAt(z, wall + DAY)]
  }

  /** The candidate instants at which the clock really shows `wall`. */
  function Showing(z: Zone, wall: int, offsets: seq<int>): seq<int> {
    if offsets == [] then []
    else
      var t := wall - offsets[0];
      (if Local(z, t) == wall then [t] else []) + Showing(z, wall, offsets[1..])
  }

  function WallToUtc(z: Zone, wall: int): int {
    var offsets := NearbyOffsets(z, wall);
    var valid := Showing(z, wall, offsets);
    if valid != [] then Smallest(valid) else wall - Smallest(offsets)
  }

  /** Within a day of a reading the zone changes at most once. */
  lemma {:induction false} OneChangeNearby(z: Zone, wall: int) returns (at: int, before: int, after: int)
    requires Valid(z)
    ensures PlausibleOffset(before) && PlausibleOffset(after) && -HOUR <= after - before <= HOUR
    ensures forall t | wall - DAY <= t <= wall + DAY :: OffsetAt(z, t) == if t < at then before else after
    ensures WallOffset(z, wall, 0) == if wall < at + Max(before, after) then before else after
  {
    match z
    case Fixed(offset) =>
      at, before, after := 0, offset, offset;
    case Change(e, change, offset) =>
      OffsetsArePlausible(e, wall, 0);
      if change > wall + DAY {
        at, before, after := OneChangeNearby(e, wall);
      } else {
        at, before, after := change, e.offset, offset;
        if wall < change + Max(before, after) {
          AfterLastChange(e, wall);
        }
      }
  }

  lemma {:induction false} ShowingIsExact(z: Zone, wall: int, offsets: seq<int>, t: int)
    ensures t in Showing(z, wall, offsets) <==> Local(z, t) == wall && wall - t in offsets
  {
    hide Local;
    if offsets != [] {
      ShowingIsExact(z, wall, offsets[1..], t);
      assert offsets == [offsets[0]] + offsets[1..];
    }
  }

  lemma {:induction false} SmallestIsLeast(xs: seq<int>)
    requires xs != []
    ensures Smallest(xs) in xs && forall x | x in xs :: Smallest(xs) <= x
  {
    if |xs| > 1 {
      SmallestIsLeast(xs[1..]);
      assert xs == [xs[0]] + xs[1..];
    } else {
      assert xs == [xs[0]];
    }
  }

  /** The browser picks the instant that PEP 495 calls `fold` 0. */
  lemma WallToUtcIsFirstReading(z: Zone, wall: int)
    requires Valid(z)
    ensures WallToUtc(z, wall) == Instant(z, wall, 0)
  {
    var at, before, after := OneChangeNearby(z, wall);
    var offsets := NearbyOffsets(z, wall);
    var valid := Showing(z, wall, offsets);
    forall t ensures t in valid <==> Local(z, t) == wall && wall - t in offsets {
      ShowingIsExact(z, wall, offsets, t);
    }
    hide WholeHour, Showing, Smallest;
    var a, b := wall - before, wall - after;
    assert Local(z, a) == a + if a < at then before else after;
    assert Local(z, b) == b + if b < at then before else after;
    ChoosingIsWaiting(wall, at, before, after, offsets, valid);
  }

  /** With one change about, choosing among the valid readings, or the smaller
      offset when there is none, is waiting for the clock to pass both readings
      the change jumps between. */
  lemma ChoosingIsWaiting(wall: int, at: int, before: int, after: int, offsets: seq<int>, valid: seq<int>)
    requires -15 * HOUR <= before <= 15 * HOUR && -15 * HOUR <= after <= 15 * HOUR
    requires |offsets| == 3
    requires offsets[0] == if wall - DAY < at then before else after
    requires offsets[1] == if wall < at then before else after
    requires offsets[2] == if wall + DAY < at then before else after
    requires forall t | t in valid :: wall - t in offsets
    requires wall - before in valid <==> before in offsets && (wall - before < at || before == after)
    requires wall - after in valid <==> after in offsets && (wall - after >= at || before == after)
    ensures (if valid != [] then Smallest(valid) else wall - Smallest(offsets))
            == wall - if wall < at + Max(before, after) then before else after
  {
    SmallestIsLeast(offsets);
    if valid != [] {
      SmallestIsLeast(valid);
    }
    hide Smallest;
    assert forall o | o in offsets :: o == before || o == after;
    if wall < at + Max(before, after) {
      assert before == offsets[0];
    } else {
      assert after == offsets[2];
    }
  }

  lemma SameSide(t: int, r: int, s: int)
    requires WholeHour(t) && WholeHour(s) && 0 <= r < HOUR
    ensures t + r >= s <==> t >= s
  {
    if t < s { WholeHoursApart(t, s); }
  }

  /** Between whole hours nothing changes. */
  lemma {:induction false} HoursAreUniform(z: Zone, t: int, r: int)
    requires Valid(z) && WholeHour(t) && 0 <= r < HOUR
    ensures OffsetAt(z, t + r) == OffsetAt(z, t)
    ensures WallOffset(z, t + r, 0) == WallOffset(z, t, 0)
  {
    if z.Change? {
      HoursAreUniform(z.earlier, t, r);
      SameSide(t, r, z.at + Max(z.earlier.offset, z.offset));
      SameSide(t, r, z.at);
      hide WholeHour;
    }
  }

  function HourOf(wall: int): int {
    wall / HOUR * HOUR
  }

  lemma HourOfIs(wall: int)
    ensures WholeHour(HourOf(wall)) && wall % HOUR == wall - HourOf(wall) && 0 <= wall - HourOf(wall) < HOUR
    ensures forall h | WholeHour(h) && h <= wall < h + HOUR :: h == HourOf(wall)
  {
  }

  lemma WholeOffsets(t: int, offset: int)
    requires PlausibleOffset(offset)
    ensures WholeHour(t) <==> WholeHour(t + offset)
    ensures WholeHour(t) <==> WholeHour(t - offset)
  {
  }

  /** Both directions of the clock are the same all hour long. */
  lemma HourByHour(z: Zone, t: int, r: int)
    requires Valid(z) && WholeHour(t) && 0 <= r < HOUR
    ensures Local(z, t + r) == Local(z, t) + r
    ensures Instant(z, t + r, 0) == Instant(z, t, 0) + r
  {
    HoursAreUniform(z, t, r);
    hide OffsetAt, WallOffset;
  }

  /** A reading inside an hour is the hour's reading plus the same minutes. */
  lemma WithinTheHour(z: Zone, wall: int)
    requires Valid(z)
    ensures WholeHour(HourOf(wall)) && wall == HourOf(wall) + wall % HOUR
    ensures WholeHour(Instant(z, HourOf(wall), 0))
    ensures WallToUtc(z, wall) == Instant(z, HourOf(wall), 0) + wall % HOUR
    ensures Local(z, WallToUtc(z, wall)) == Local(z, Instant(z, HourOf(wall), 0)) + wall % HOUR
  {
    hide *;
    var hour := HourOf(wall);
    var r := wall - hour;
    HourOfIs(wall);
    WallToUtcIsFirstReading(z, wall);
    HourByHour(z, hour, r);
    WholeReadings(z, hour);
    HourByHour(z, Instant(z, hour, 0), r);
  }

  lemma ShownInItsHour(z: Zone, shown: int)
    requires Valid(z)
    ensures WholeHour(shown - Local(z, shown) % HOUR)
    ensures Local(z, shown - Local(z, shown) % HOUR) == HourOf(Local(z, shown))
  {
    hide *;
    var local := Local(z, shown);
    var hour := HourOf(local);
    var r := local - hour;
    HourOfIs(local);
    LocalIsOffset(z, shown);
    WholeOffsets(shown - r, local - shown);
    HourByHour(z, shown - r, r);
  }

  lemma LocalIsOffset(z: Zone, shown: int)
    requires Valid(z)
    ensures PlausibleOffset(Local(z, shown) - shown)
  {
    OffsetsArePlausible(z, shown, 0);
    hide OffsetAt, WallOffset;
  }

  /** The first reading of an hour that is shown at all is its first showing. */
  lemma FirstShowing(z: Zone, hour: int, t: int)
    requires Valid(z) && WholeHour(hour) && Local(z, t) == hour
    ensures Local(z, Instant(z, hour, 0)) == hour && Instant(z, hour, 0) <= t
  {
    ClockReaches(z, hour, t);
    ClockReaches(z, hour + HOUR, t) by { assert WholeHour(hour + HOUR); }
    HourOccurs(z, hour);
    hide OffsetAt, WallOffset, Instant, Local, WholeHour, Occurrences, Valid;
  }

  /** Reading back gives the same wall time whenever that time exists, and of
      several instants that show it the browser picks the first. */
  lemma RoundTrip(z: Zone, wall: int, shown: int)
    requires Valid(z) && Local(z, shown) == wall
    ensures Local(z, WallToUtc(z, wall)) == wall
    ensures WallToUtc(z, wall) <= shown
  {
    hide *;
    WithinTheHour(z, wall);
    ShownInItsHour(z, shown);
    HourOfIs(wall);
    FirstShowing(z, HourOf(wall), shown - (wall - HourOf(wall)));
  }

  /** A skipped wall time is read as the same time elapsed after the jump: from
      the instant at which the clock went from that hour straight to the next. */
  lemma SkippedTime(z: Zone, wall: int)
    requires Valid(z) && forall t :: Local(z, t) != wall
    ensures var jump := WallToUtc(z, wall) - wall % HOUR;
            && Local(z, jump) == HourOf(wall) + HOUR
            && forall t | t < jump :: Local(z, t) < HourOf(wall)
  {
    var hour, r := HourOf(wall), wall % HOUR;
    WithinTheHour(z, wall);
    HourOccurs(z, hour);
    var first := Instant(z, hour, 0);
    assert Local(z, WallToUtc(z, wall)) != wall;
    forall t | t < first ensures Local(z, t) < hour {
      ClockReaches(z, hour, t);
    }
    hide OffsetAt, WallOffset, WallToUtc;
    LandsOnTheNextHour(z, hour);
  }

  lemma {:induction false} LandsOnTheNextHour(z: Zone, hour: int)
    requires Valid(z) && WholeHour(hour) && Occurrences(z, hour) == 0
    ensures Local(z, Instant(z, hour, 0)) == hour + HOUR
  {
    HourOccurs(z, hour);
    OddHoursLieAtChanges(z, hour);
    if hour < z.at + Min(z.earlier.offset, z.offset) {
      LandsOnTheNextHour(z.earlier, hour);
      HourOccurs(z.earlier, hour);
      SameReadings(z, hour);
    } else {
      AfterLastChange(z.earlier, hour);
    }
  }
}
