/** Opening hours on the space's own clock, as hourly UTC slots. A slot is named
    by its start; it ends one hour later. */
module OpeningHours {
  import opened Model
  import opened Zones

  type TimeOfDay = t: int | 0 <= t < DAY

  /** One opening window of a room; `weekday` counts from Monday = 0. */
  datatype Rule = Rule(weekday: int, open: TimeOfDay, close: TimeOfDay, active: bool)

  /** Day 0 of the epoch was a Thursday. */
  function Weekday(day: int): int {
    (day + 3) % 7
  }

  // ---- the slots of one window ------------------------------------------------

  /** The showings of the wall-clock hour `wall` among its first `folds` readings:
      a reading that does not come back as `wall` denotes no such hour. */
  function Showings(z: Zone, wall: int, folds: nat): seq<int> {
    if folds == 0 then []
    else
      var shown, t := Showings(z, wall, folds - 1), Instant(z, wall, folds - 1);
      if Local(z, t) == wall && t !in shown then shown + [t] else shown
  }

  /** The slots of the wall-clock hour that starts at `wall`. */
  function HourSlots(z: Zone, wall: int): seq<int> {
    Showings(z, wall, 2)
  }

  /** The slots of the wall-clock window `[from, to)`, hour by hour. */
  function WindowSlots(z: Zone, from: int, until: int): seq<int>
    decreases until - from
  {
    if from + HOUR > until then [] else HourSlots(z, from) + WindowSlots(z, from + HOUR, until)
  }

  /** The slots a rule opens on `day`. */
  function RuleSlots(z: Zone, day: int, rule: Rule): seq<int> {
    WindowSlots(z, day * DAY + rule.open, day * DAY + rule.close)
  }

  /** The showings found so far all show the hour, and are at most one a fold. */
  ghost predicate AllShow(z: Zone, wall: int, shown: seq<int>, folds: nat) {
    |shown| <= folds && forall t | t in shown :: Local(z, t) == wall
  }

  /** One fold further: the reading is a showing unless it comes back as another
      time, or is the one before it. */
  lemma OneMoreFold(z: Zone, wall: int, fold: nat, before: seq<int>)
    requires fold < 2 && AllShow(z, wall, Showings(z, wall, fold), fold)
    requires before != [] ==> Local(z, before[|before| - 1]) < wall
    ensures var shown, start := Showings(z, wall, fold), Instant(z, wall, fold);
            var slots := before + shown;
            var repeats := slots != [] && slots[|slots| - 1] == start;
            && AllShow(z, wall, Showings(z, wall, fold + 1), fold + 1)
            && before + Showings(z, wall, fold + 1)
               == if Local(z, start) != wall || repeats then slots else slots + [start]
  {
    hide OffsetAt, WallOffset, Local, Instant;
    var shown, start := Showings(z, wall, fold), Instant(z, wall, fold);
    var slots := before + shown;
    if Local(z, start) == wall {
      assert shown != [] ==> |shown| == 1 && slots[|slots| - 1] == shown[0];
      assert start in shown <==> slots != [] && slots[|slots| - 1] == start;
    }
  }

  lemma NoFoldYet(z: Zone, wall: int, before: seq<int>)
    ensures AllShow(z, wall, Showings(z, wall, 0), 0) && before + Showings(z, wall, 0) == before
  {
  }

  /** After both folds the last slot, if any, shows an hour already passed. */
  lemma LastSlotIsPast(z: Zone, wall: int, before: seq<int>)
    requires AllShow(z, wall, HourSlots(z, wall), 2)
    requires before != [] ==> Local(z, before[|before| - 1]) < wall
    ensures var slots := before + HourSlots(z, wall);
            slots != [] ==> Local(z, slots[|slots| - 1]) < wall + HOUR
  {
    hide Showings, Local;
    var shown := HourSlots(z, wall);
    if shown != [] {
      assert shown[|shown| - 1] in shown;
    }
  }

  lemma HourSlotsAreBothFolds(z: Zone, wall: int)
    ensures HourSlots(z, wall) == Showings(z, wall, 2)
  {
  }

  lemma WindowIsOver(z: Zone, current: int, end: int)
    requires current + HOUR > end
    ensures WindowSlots(z, current, end) == []
  {
  }

  method LocalHourlySlots(day: int, open: TimeOfDay, close: TimeOfDay, z: Zone) returns (slots: seq<int>)
    ensures slots == WindowSlots(z, day * DAY + open, day * DAY + close)
  {
    hide *;
    slots := [];
    var current := day * DAY + open;
    var end := day * DAY + close;
    HoursPass();
    while current + HOUR <= end
      invariant slots + WindowSlots(z, current, end) == WindowSlots(z, day * DAY + open, end)
      invariant slots != [] ==> Local(z, slots[|slots| - 1]) < current
      decreases end - current
    {
      ghost var before := slots;
      NoFoldYet(z, current, before);
      for fold := 0 to 2
        invariant slots == before + Showings(z, current, fold)
        invariant AllShow(z, current, Showings(z, current, fold), fold)
      {
        OneMoreFold(z, current, fold, before);
        var start := Instant(z, current, fold);
        if Local(z, start) != current {
          continue;
        }
        if slots != [] && slots[|slots| - 1] == start {
          continue;
        }
        slots := slots + [start];
      }
      HourSlotsAreBothFolds(z, current);
      LastSlotIsPast(z, current, before);
      NextHour(z, current, end, before);
      current := current + HOUR;
    }
    WindowIsOver(z, current, end);
    assert slots + [] == slots;
  }

  lemma HoursPass()
    ensures HOUR > 0
  {
  }

  lemma NextHour(z: Zone, current: int, end: int, before: seq<int>)
    requires current + HOUR <= end
    ensures before + HourSlots(z, current) + WindowSlots(z, current + HOUR, end)
            == before + WindowSlots(z, current, end)
  {
  }

  // ---- what a whole-hour window's slots are --------------------------------------

  /** `n` slots one after the other, the first at `start`. */
  function Run(start: int, n: int): seq<int>
    requires n >= 0
  {
    seq(n, i => start + i * HOUR)
  }

  lemma HourSlotsAreItsShowings(z: Zone, wall: int)
    requires Valid(z) && WholeHour(wall)
    ensures 0 <= Occurrences(z, wall) <= 2
    ensures HourSlots(z, wall) == Run(Instant(z, wall, 0), Occurrences(z, wall))
  {
    HourOccurs(z, wall);
    hide OffsetAt, WallOffset;
    var first, second := Instant(z, wall, 0), Instant(z, wall, 1);
    assert Showings(z, wall, 1) == if Local(z, first) == wall then [first] else [];
  }

  /** The slots of a whole-hour window follow each other without gap or overlap,
      from the first instant of the window to its last. */
  lemma {:induction false} SlotsAreOneRun(z: Zone, from: int, until: int)
    requires Valid(z) && WholeHour(from) && WholeHour(until) && from <= until
    ensures var n := |WindowSlots(z, from, until)|;
            && WindowSlots(z, from, until) == Run(Instant(z, from, 0), n)
            && Instant(z, from, 0) + n * HOUR == Instant(z, until, 0)
    decreases until - from
  {
    if from < until {
      WholeHoursApart(from, until);
      HourSlotsAreItsShowings(z, from);
      HourOccurs(z, from);
      SlotsAreOneRun(z, from + HOUR, until);
      var first, rest := Occurrences(z, from), |WindowSlots(z, from + HOUR, until)|;
      RunsJoin(Instant(z, from, 0), first, rest);
    }
  }

  lemma RunsJoin(start: int, n: int, m: int)
    requires n >= 0 && m >= 0
    ensures Run(start, n) + Run(start + n * HOUR, m) == Run(start, n + m)
  {
  }

  /** Some slot of `slots` contains instant `t`. */
  ghost predicate Covers(slots: seq<int>, t: int) {
    exists i :: 0 <= i < |slots| && slots[i] <= t < slots[i] + HOUR
  }

  lemma RunCovers(start: int, n: int, t: int)
    requires n >= 0
    ensures Covers(Run(start, n), t) <==> start <= t < start + n * HOUR
  {
    var run := Run(start, n);
    if start <= t < start + n * HOUR {
      var i := (t - start) / HOUR;
      assert i * HOUR <= t - start < i * HOUR + HOUR;
      assert run[i] == start + i * HOUR;
    }
    if i :| 0 <= i < n && run[i] <= t < run[i] + HOUR {
      assert i * HOUR + HOUR <= n * HOUR;
    }
  }

  /** The slots cover exactly the instants at which the room's clock reads a
      time inside the window. */
  lemma SlotsCoverExactlyTheOpenTime(z: Zone, from: int, until: int, t: int)
    requires Valid(z) && WholeHour(from) && WholeHour(until) && from <= until
    ensures Covers(WindowSlots(z, from, until), t) <==> from <= Local(z, t) < until
  {
    SlotsAreOneRun(z, from, until);
    RunCovers(Instant(z, from, 0), |WindowSlots(z, from, until)|, t);
    ClockReaches(z, from, t);
    ClockReaches(z, until, t);
  }

  /** The slots of a window are whole hours themselves, and each starts when
      the clock shows a whole hour of the window. */
  lemma SlotStarts(z: Zone, from: int, until: int, s: int)
    requires Valid(z) && WholeHour(from) && WholeHour(until) && from <= until
    ensures s in WindowSlots(z, from, until) <==> WholeHour(s) && from <= Local(z, s) < until
  {
    hide *;
    SlotsAreOneRun(z, from, until);
    SlotsCoverExactlyTheOpenTime(z, from, until, s);
    WholeReadings(z, from);
    RunStarts(Instant(z, from, 0), |WindowSlots(z, from, until)|, s);
  }

  /** The `i`th hour from a whole hour is whole, and the only whole hour in itself. */
  lemma HoursFrom(start: int, i: nat, s: int)
    requires WholeHour(start)
    ensures WholeHour(start + i * HOUR)
    ensures WholeHour(s) && start + i * HOUR <= s < start + i * HOUR + HOUR ==> s == start + i * HOUR
  {
  }

  lemma RunStarts(start: int, n: int, s: int)
    requires n >= 0 && WholeHour(start)
    ensures s in Run(start, n) <==> WholeHour(s) && Covers(Run(start, n), s)
  {
    hide WholeHour;
    var run := Run(start, n);
    if WholeHour(s) && Covers(run, s) {
      var i :| 0 <= i < n && run[i] <= s < run[i] + HOUR;
      HoursFrom(start, i, s);
      assert s == run[i];
    }
    if s in run {
      var i :| 0 <= i < n && run[i] == s;
      HoursFrom(start, i, s);
    }
  }

  /** How many slots a window of at most a day has: one per wall-clock hour,
      one fewer across a spring change, one more across an autumn change. */
  lemma {:induction false} SlotCount(z: Zone, from: int, until: int)
    requires Valid(z) && WholeHour(from) && WholeHour(until) && from <= until <= from + DAY
    ensures var hours := (until - from) / HOUR;
            var n := |WindowSlots(z, from, until)|;
            if exists h :: WholeHour(h) && from <= h < until && Occurrences(z, h) == 0 then n == hours - 1
            else if exists h :: WholeHour(h) && from <= h < until && Occurrences(z, h) == 2 then n == hours + 1
            else n == hours
    decreases until - from
  {
    if from < until {
      WholeHoursApart(from, until);
      SlotCount(z, from + HOUR, until);
      HourSlotsAreItsShowings(z, from);
      forall h | WholeHour(h) && from < h < until && Occurrences(z, from) != 1
        ensures Occurrences(z, h) == 1
      {
        if Occurrences(z, h) != 1 {
          OddHoursAreFarApart(z, from, h);
        }
      }
      forall h | WholeHour(h) && from <= h < until ensures h == from || from + HOUR <= h {
        if h != from { WholeHoursApart(from, h); }
      }
    }
  }
}
