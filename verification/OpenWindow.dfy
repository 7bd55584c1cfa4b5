/** Whether an interval lies inside a room's opening hours. */
module OpenWindow {
  import opened Model
  import opened Zones
  import opened OpeningHours

  // ---- open slots of a day -----------------------------------------------------

  /** `s` is one of the slots the active rules for `day` open. */
  predicate ListedSlot(rules: seq<Rule>, z: Zone, day: int, s: int) {
    exists i :: 0 <= i < |rules| && Opens(rules[i], z, day, s)
  }

  predicate Opens(rule: Rule, z: Zone, day: int, s: int) {
    rule.active && rule.weekday == Weekday(day) && s in RuleSlots(z, day, rule)
  }

  /** The hour from `s` is an open slot of the local day it falls on. */
  predicate OpenHour(rules: seq<Rule>, z: Zone, s: int) {
    ListedSlot(rules, z, LocalDay(z, s), s)
  }

  lemma {:induction false} WindowSlotsShowTheirHour(z: Zone, from: int, until: int, s: int)
    requires s in WindowSlots(z, from, until)
    ensures from <= Local(z, s) <= until - HOUR
    decreases until - from
  {
    hide OffsetAt, WallOffset;
    if s in HourSlots(z, from) {
      HourSlotsShowIt(z, from, 2, s);
    } else {
      WindowSlotsShowTheirHour(z, from + HOUR, until, s);
    }
  }

  lemma {:induction false} HourSlotsShowIt(z: Zone, wall: int, folds: nat, s: int)
    requires s in Showings(z, wall, folds)
    ensures Local(z, s) == wall
  {
    hide OffsetAt, WallOffset;
    if s in Showings(z, wall, folds - 1) {
      HourSlotsShowIt(z, wall, folds - 1, s);
    }
  }

  /** A slot is listed under the local day it falls on, and no other. */
  lemma SlotsFallOnTheirDay(rules: seq<Rule>, z: Zone, day: int, s: int)
    requires ListedSlot(rules, z, day, s)
    ensures LocalDay(z, s) == day
  {
    var i :| 0 <= i < |rules| && Opens(rules[i], z, day, s);
    WindowSlotsShowTheirHour(z, day * DAY + rules[i].open, day * DAY + rules[i].close, s);
    hide OffsetAt, WallOffset, Local, RuleSlots, Weekday;
    DayOf(Local(z, s), day);
  }

  lemma DayOf(clock: int, day: int)
    requires day * DAY <= clock < day * DAY + DAY
    ensures clock / DAY == day
  {
  }

  // ---- the check -----------------------------------------------------------------

  ghost predicate OnGrid(start: int, end: int, s: int) {
    start <= s < end && (s - start) % HOUR == 0
  }

  /** The interval is aligned to the hour and not empty, every hour of it is
      open, and no open slot off the hour reaches into it. */
  ghost predicate WithinOpenHours(rules: seq<Rule>, z: Zone, start: int, end: int) {
    && WholeHour(start) && WholeHour(end) && start < end
    && (forall s | OnGrid(start, end, s) :: OpenHour(rules, z, s))
    && !OffHourSlotInside(rules, z, start, end)
  }

  ghost predicate OffHourSlotInside(rules: seq<Rule>, z: Zone, start: int, end: int) {
    exists day, s | LocalDay(z, start) <= day <= LocalDay(z, end - 1) && s < end && s + HOUR > start ::
      ListedSlot(rules, z, day, s) && !WholeHour(s)
  }

  predicate IsEarliest(slots: set<int>, s: int) {
    s in slots && forall t | t in slots :: s <= t
  }

  lemma {:induction false} EarliestExists(slots: set<int>)
    requires slots != {}
    ensures exists s :: IsEarliest(slots, s)
    decreases |slots|
  {
    assert (forall c: int :: c !in slots) ==> slots == {};
    var c :| c in slots;
    if slots == {c} {
      assert IsEarliest(slots, c);
    } else {
      EarliestExists(slots - {c});
      var s :| IsEarliest(slots - {c}, s);
      assert forall t | t in slots :: t == c || t in slots - {c};
      assert IsEarliest(slots, Min(s, c));
    }
  }

  function Sorted(slots: set<int>): (order: seq<int>)
    ensures forall s :: s in order <==> s in slots
    ensures forall i, j | 0 <= i < j < |order| :: order[i] < order[j]
  {
    if slots == {} then []
    else
      EarliestExists(slots);
      assert exists s :: s in slots && IsEarliest(slots, s);
      var s :| s in slots && IsEarliest(slots, s);
      [s] + Sorted(slots - {s})
  }

  lemma GridStep(start: int, end: int, s: int)
    requires WholeHour(start) && WholeHour(end)
    ensures start < end && s == start ==> OnGrid(start, end, s)
    ensures OnGrid(start, end, s) ==> start <= s && WholeHour(s) && s + HOUR <= end
    ensures OnGrid(start, end, s) && s + HOUR != end ==> OnGrid(start, end, s + HOUR)
    ensures WholeHour(s) && s < end && s + HOUR > start ==> OnGrid(start, end, s)
  {
  }

  lemma GridApart(start: int, end: int, s: int, t: int)
    requires OnGrid(start, end, s) && OnGrid(start, end, t) && s < t
    ensures s + HOUR <= t
  {
    assert t - s == (t - start) - (s - start);
  }

  /** A sorted list of slots is one unbroken chain from `start` to `end`. */
  predicate Chain(covered: seq<int>, start: int, end: int) {
    && covered != [] && covered[0] == start && covered[|covered| - 1] + HOUR == end
    && forall i | 0 <= i < |covered| - 1 :: covered[i] + HOUR == covered[i + 1]
  }

  lemma {:induction false} ChainSteps(covered: seq<int>, start: int, end: int, i: nat)
    requires Chain(covered, start, end) && i < |covered|
    ensures covered[i] == start + i * HOUR
  {
    if i > 0 {
      ChainSteps(covered, start, end, i - 1);
    }
  }

  lemma ChainIsTheGrid(slots: set<int>, start: int, end: int)
    requires Chain(Sorted(slots), start, end)
    ensures start < end && forall s :: s in slots <==> OnGrid(start, end, s)
  {
    hide Sorted, OnGrid;
    var covered := Sorted(slots);
    var n := |covered|;
    forall i | 0 <= i < n ensures covered[i] == start + i * HOUR && covered[i] in slots {
      ChainSteps(covered, start, end, i);
      assert covered[i] in covered;
    }
    forall s | s in slots ensures OnGrid(start, end, s) {
      assert s in covered;
      var i :| 0 <= i < n && covered[i] == s;
      CountOnGrid(start, end, i, n);
    }
    forall s | OnGrid(start, end, s) ensures s in slots {
      var i := PlaceOnGrid(start, end, s, n);
      assert covered[i] == s;
    }
  }

  lemma CountOnGrid(start: int, end: int, i: nat, n: nat)
    requires i < n && end == start + n * HOUR
    ensures OnGrid(start, end, start + i * HOUR)
  {
    assert (start + i * HOUR - start) % HOUR == 0;
  }

  lemma PlaceOnGrid(start: int, end: int, s: int, n: nat) returns (i: nat)
    requires OnGrid(start, end, s) && end == start + n * HOUR
    ensures i < n && s == start + i * HOUR
  {
    i := (s - start) / HOUR;
  }

  /** `covered` lists the grid from `start` to `end` in order. */
  ghost predicate ListsTheGrid(covered: seq<int>, start: int, end: int) {
    && (forall s :: s in covered <==> OnGrid(start, end, s))
    && (forall i, j | 0 <= i < j < |covered| :: covered[i] < covered[j])
  }

  /** A listed hour is followed by the next one, or is the last. */
  lemma NextOnTheGrid(covered: seq<int>, start: int, end: int, i: nat)
    requires WholeHour(start) && WholeHour(end) && ListsTheGrid(covered, start, end) && i < |covered|
    ensures start <= covered[i] && covered[i] + HOUR <= end
    ensures covered[i] + HOUR == if i == |covered| - 1 then end else covered[i + 1]
  {
    hide OnGrid, WholeHour;
    assert covered[i] in covered;
    GridStep(start, end, covered[i]);
    if covered[i] + HOUR != end {
      assert covered[i] + HOUR in covered;
      var j :| 0 <= j < |covered| && covered[j] == covered[i] + HOUR;
      assert i < j;
      if i + 1 < j {
        assert covered[i + 1] in covered;
        GridApart(start, end, covered[i], covered[i + 1]);
      }
    } else if i + 1 < |covered| {
      assert covered[i + 1] in covered;
      GridStep(start, end, covered[i + 1]);
    }
  }

  lemma TheGridStarts(covered: seq<int>, start: int, end: int)
    requires WholeHour(start) && WholeHour(end) && start < end && ListsTheGrid(covered, start, end)
    ensures covered != [] && covered[0] == start
  {
    hide OnGrid, WholeHour;
    GridStep(start, end, start);
    assert start in covered;
    var first :| 0 <= first < |covered| && covered[first] == start;
    NextOnTheGrid(covered, start, end, 0);
  }

  lemma TheGridIsAChain(slots: set<int>, start: int, end: int)
    requires WholeHour(start) && WholeHour(end) && start < end
    requires forall s :: s in slots <==> OnGrid(start, end, s)
    ensures Chain(Sorted(slots), start, end)
  {
    hide OnGrid, WholeHour, Sorted;
    var covered := Sorted(slots);
    assert ListsTheGrid(covered, start, end);
    hide ListsTheGrid;
    TheGridStarts(covered, start, end);
    NextOnTheGrid(covered, start, end, |covered| - 1);
    forall i | 0 <= i < |covered| - 1 ensures covered[i] + HOUR == covered[i + 1] {
      NextOnTheGrid(covered, start, end, i);
    }
  }

  /** The slots of every local day the interval touches. */
  ghost predicate AllSlots(slots: set<int>, rules: seq<Rule>, z: Zone, first: int, last: int) {
    forall s :: s in slots <==> exists day :: first <= day <= last && ListedSlot(rules, z, day, s)
  }

  method SlotsOfDay(rules: seq<Rule>, z: Zone, day: int) returns (slots: set<int>)
    ensures forall s :: s in slots <==> ListedSlot(rules, z, day, s)
  {
    hide WindowSlots;
    slots := {};
    for i := 0 to |rules|
      invariant forall s :: s in slots <==> exists j :: 0 <= j < i && Opens(rules[j], z, day, s)
    {
      if rules[i].active && rules[i].weekday == Weekday(day) {
        var more := LocalHourlySlots(day, rules[i].open, rules[i].close, z);
        assert more == RuleSlots(z, day, rules[i]);
        slots := slots + set s | s in more;
      }
      assert forall s :: (exists j :: 0 <= j < i + 1 && Opens(rules[j], z, day, s))
                     <==> ((exists j :: 0 <= j < i && Opens(rules[j], z, day, s)) || Opens(rules[i], z, day, s));
    }
  }

  method IsWithinOpenHours(rules: seq<Rule>, z: Zone, start: int, end: int) returns (ok: bool)
    requires Valid(z)
    ensures ok <==> WithinOpenHours(rules, z, start, end)
  {
    hide LocalDay, ListedSlot, Valid, OnGrid, OpenHour, OffHourSlotInside, Sorted, Touching;
    if (end - start) % HOUR != 0 {
      return false;
    }
    if start % HOUR != 0 || end % HOUR != 0 {
      return false;
    }
    var all: set<int> := {};
    var day := LocalDay(z, start);
    var last := LocalDay(z, end - 1);
    while day <= last
      invariant LocalDay(z, start) <= day
      invariant AllSlots(all, rules, z, LocalDay(z, start), Min(day - 1, last))
      decreases last - day
    {
      var more := SlotsOfDay(rules, z, day);
      all := all + more;
      day := day + 1;
    }
    var covered := Sorted(Touching(all, start, end));
    CheckIsExact(rules, z, start, end, all);
    if covered == [] || covered[0] != start || covered[|covered| - 1] + HOUR != end {
      return false;
    }
    for i := 0 to |covered| - 1
      invariant forall j | 0 <= j < i :: covered[j] + HOUR == covered[j + 1]
    {
      if covered[i] + HOUR != covered[i + 1] {
        return false;
      }
    }
    return true;
  }

  function Touching(all: set<int>, start: int, end: int): set<int> {
    set s | s in all && s < end && s + HOUR > start
  }

  lemma CheckIsExact(rules: seq<Rule>, z: Zone, start: int, end: int, all: set<int>)
    requires Valid(z) && WholeHour(start) && WholeHour(end)
    requires AllSlots(all, rules, z, LocalDay(z, start), LocalDay(z, end - 1))
    ensures Chain(Sorted(Touching(all, start, end)), start, end) <==> WithinOpenHours(rules, z, start, end)
  {
    if Chain(Sorted(Touching(all, start, end)), start, end) {
      ChainMeansOpen(rules, z, start, end, all);
    }
    if WithinOpenHours(rules, z, start, end) {
      OpenMeansGrid(rules, z, start, end, all);
      TheGridIsAChain(Touching(all, start, end), start, end);
    }
  }

  lemma ChainMeansOpen(rules: seq<Rule>, z: Zone, start: int, end: int, all: set<int>)
    requires Valid(z) && WholeHour(start) && WholeHour(end)
    requires AllSlots(all, rules, z, LocalDay(z, start), LocalDay(z, end - 1))
    requires Chain(Sorted(Touching(all, start, end)), start, end)
    ensures WithinOpenHours(rules, z, start, end)
  {
    var slots := Touching(all, start, end);
    ChainIsTheGrid(slots, start, end);
    hide OffsetAt, WallOffset, Valid, WindowSlots, Sorted, Chain, OnGrid, LocalDay, ListedSlot, WholeHour;
    forall s | OnGrid(start, end, s) ensures OpenHour(rules, z, s) {
      assert s in slots;
      var day :| LocalDay(z, start) <= day <= LocalDay(z, end - 1) && ListedSlot(rules, z, day, s);
      SlotsFallOnTheirDay(rules, z, day, s);
    }
    forall day, s | LocalDay(z, start) <= day <= LocalDay(z, end - 1) && s < end && s + HOUR > start
                    && ListedSlot(rules, z, day, s)
      ensures WholeHour(s)
    {
      assert s in slots;
      GridStep(start, end, s);
    }
  }

  lemma OpenMeansGrid(rules: seq<Rule>, z: Zone, start: int, end: int, all: set<int>)
    requires Valid(z) && WithinOpenHours(rules, z, start, end)
    requires AllSlots(all, rules, z, LocalDay(z, start), LocalDay(z, end - 1))
    ensures forall s :: s in Touching(all, start, end) <==> OnGrid(start, end, s)
  {
    hide OffsetAt, WallOffset, Valid, WindowSlots, OnGrid, LocalDay, ListedSlot, WholeHour;
    var slots := Touching(all, start, end);
    forall s ensures s in slots <==> OnGrid(start, end, s) {
      GridStep(start, end, s);
      if OnGrid(start, end, s) {
        LocalDayIsMonotonic(z, start, s);
        LocalDayIsMonotonic(z, s, end - 1);
        assert OpenHour(rules, z, s);
      }
      if s in slots {
        var day :| LocalDay(z, start) <= day <= LocalDay(z, end - 1) && ListedSlot(rules, z, day, s);
        assert WholeHour(s);
      }
    }
  }

  // ---- whole-hour rules -------------------------------------------------------------

  ghost predicate WholeHourRules(rules: seq<Rule>) {
    forall i | 0 <= i < |rules| :: WholeHour(rules[i].open) && WholeHour(rules[i].close)
  }

  /** With whole-hour rules an hour is open exactly when the clock then reads a
      time inside some window for that local day. */
  lemma OpenHourReadsTheClock(rules: seq<Rule>, z: Zone, s: int)
    requires Valid(z) && WholeHourRules(rules) && WholeHour(s)
    ensures OpenHour(rules, z, s) <==>
            exists i :: 0 <= i < |rules| && rules[i].active && rules[i].weekday == Weekday(LocalDay(z, s))
                        && rules[i].open <= Local(z, s) % DAY < rules[i].close
  {
    hide OffsetAt, WallOffset, WindowSlots, Valid;
    var day, clock := LocalDay(z, s), Local(z, s);
    assert clock == day * DAY + clock % DAY;
    hide RuleSlots, LocalDay, Local, WholeHour;
    forall i | 0 <= i < |rules|
      ensures s in RuleSlots(z, day, rules[i]) <==> rules[i].open <= clock % DAY < rules[i].close
    {
      WholeWindow(z, day, rules[i], s);
    }
    assert OpenHour(rules, z, s) <==> exists i :: 0 <= i < |rules| && Opens(rules[i], z, day, s);
  }

  lemma WholeHoursAdd(a: int, b: int)
    requires WholeHour(a) && WholeHour(b)
    ensures WholeHour(a + b)
  {
  }

  lemma WholeWindow(z: Zone, day: int, rule: Rule, s: int)
    requires Valid(z) && WholeHour(rule.open) && WholeHour(rule.close)
    ensures s in RuleSlots(z, day, rule)
            <==> WholeHour(s) && day * DAY + rule.open <= Local(z, s) < day * DAY + rule.close
  {
    MidnightsAreWhole(day);
    WholeHoursAdd(day * DAY, rule.open);
    WholeHoursAdd(day * DAY, rule.close);
    hide WholeHour, Valid, OffsetAt, WallOffset;
    if rule.open <= rule.close {
      SlotStarts(z, day * DAY + rule.open, day * DAY + rule.close, s);
    } else {
      assert RuleSlots(z, day, rule) == [];
    }
  }

  /** With whole-hour rules, any number of them, overlapping or split, the
      check accepts exactly the hour-aligned, non-empty runs of open hours. */
  lemma WholeHourRulesDecide(rules: seq<Rule>, z: Zone, start: int, end: int)
    requires Valid(z) && WholeHourRules(rules)
    ensures WithinOpenHours(rules, z, start, end) <==>
            && WholeHour(start) && WholeHour(end) && start < end
            && forall s | OnGrid(start, end, s) :: OpenHour(rules, z, s)
  {
    hide OffsetAt, WallOffset;
    if OffHourSlotInside(rules, z, start, end) {
      var day, s :| LocalDay(z, start) <= day <= LocalDay(z, end - 1) && s < end && s + HOUR > start
                    && ListedSlot(rules, z, day, s) && !WholeHour(s);
      var i :| 0 <= i < |rules| && Opens(rules[i], z, day, s);
      WholeWindow(z, day, rules[i], s);
      assert false;
    }
  }
}
