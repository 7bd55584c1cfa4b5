/** Weekly series: the expansion of one into its occurrences, on the server and
    in the browser's preview. */
module Recurrence {
  import opened Model

  const WEEK: int := 7 * DAY
  const MAX_OCCURRENCES: int := 104

  datatype Slot = Slot(start: int, end: int)

  /** The UTC calendar date of an instant, as a day number. */
  function Date(t: int): int {
    t / DAY
  }

  function OccurrenceCount(start: int, until: int): nat {
    if until < Date(start) then 0 else (until - Date(start)) / 7 + 1
  }

  function Occurrence(start: int, end: int, i: int): Slot {
    Slot(start + i * WEEK, end + i * WEEK)
  }

  function Expansion(start: int, end: int, until: int): seq<Slot> {
    seq(OccurrenceCount(start, until), i => Occurrence(start, end, i))
  }

  lemma WeeksAreSevenDays(t: int, i: int)
    ensures Date(t + i * WEEK) == Date(t) + 7 * i
  {
    assert t + i * WEEK == (Date(t) + 7 * i) * DAY + t % DAY;
  }

  /** The occurrences are exactly the weekly repetitions dated no later than `until`. */
  lemma ExpansionIsEveryWeekUntil(start: int, end: int, until: int, i: nat)
    ensures i < |Expansion(start, end, until)| <==> Date(start + i * WEEK) <= until
  {
    WeeksAreSevenDays(start, i);
  }

  method ExpandOccurrences(start: int, end: int, until: int) returns (occurrences: seq<Slot>)
    ensures occurrences == Expansion(start, end, until)
  {
    var duration := end - start;
    occurrences := [];
    var cursor := start;
    WeeksAreSevenDays(start, 0);
    while Date(cursor) <= until
      invariant cursor == start + |occurrences| * WEEK
      invariant Date(cursor) == Date(start) + 7 * |occurrences|
      invariant |occurrences| > 0 ==> Date(start) + 7 * (|occurrences| - 1) <= until
      invariant forall i | 0 <= i < |occurrences| :: occurrences[i] == Occurrence(start, end, i)
      decreases until - Date(cursor)
    {
      occurrences := occurrences + [Slot(cursor, cursor + duration)];
      cursor := cursor + WEEK;
      WeeksAreSevenDays(start, |occurrences|);
    }
    assert |occurrences| == OccurrenceCount(start, until);
  }

  /** Occurrences no longer than a week are pairwise disjoint, in time order. */
  lemma OccurrencesAreDisjoint(start: int, end: int, i: int, j: int)
    requires end - start <= WEEK && i < j
    ensures Occurrence(start, end, i).end <= Occurrence(start, end, j).start
  {
    assert (j - i) * WEEK >= WEEK;
  }

  // ---- the browser ------------------------------------------------------------------

  function Starts(slots: seq<Slot>): seq<int> {
    seq(|slots|, i requires 0 <= i < |slots| => slots[i].start)
  }

  /** The preview: nothing for a date that is blank or does not parse. */
  method ExpandWeeklyOccurrences(start: int, untilDate: Option<int>) returns (starts: seq<int>)
    ensures untilDate == None ==> starts == []
    ensures untilDate.Some? ==>
              var expansion := Expansion(start, start, untilDate.value);
              starts == if |expansion| > MAX_OCCURRENCES then [] else Starts(expansion)
  {
    if untilDate == None {
      return [];
    }
    var until := untilDate.value * DAY;
    if until >= Date(start) * DAY + MAX_OCCURRENCES * WEEK {
      assert OccurrenceCount(start, untilDate.value) > MAX_OCCURRENCES;
      return [];
    }
    starts := [];
    var cursor := start;
    WeeksAreSevenDays(start, 0);
    while Date(cursor) * DAY <= until && |starts| < MAX_OCCURRENCES
      invariant |starts| <= MAX_OCCURRENCES
      invariant cursor == start + |starts| * WEEK
      invariant Date(cursor) == Date(start) + 7 * |starts|
      invariant |starts| > 0 ==> Date(start) + 7 * (|starts| - 1) <= untilDate.value
      invariant forall i | 0 <= i < |starts| :: starts[i] == start + i * WEEK
    {
      starts := starts + [cursor];
      cursor := cursor + WEEK;
      WeeksAreSevenDays(start, |starts|);
    }
    assert |starts| == OccurrenceCount(start, untilDate.value);
  }

  // ---- the window -------------------------------------------------------------------

  datatype WindowError = EmptySlot | StartsInThePast | EndsBeforeItStarts | LongerThanAWeek | TooMany | NothingLeft

  datatype Window = Bad(error: WindowError) | Good(occurrences: seq<Slot>)

  function Future(slots: seq<Slot>, now: int): (future: seq<Slot>)
    ensures forall o :: o in future <==> o in slots && o.start > now
    ensures |future| <= |slots|
  {
    if slots == [] then []
    else (if slots[0].start > now then [slots[0]] else []) + Future(slots[1..], now)
  }

  /** What a request for a series is worth: its occurrences, or why not. An
      edit (`pastAnchor`) may start in the past and keeps the future ones. */
  function ValidatedWindow(start: int, end: int, until: int, pastAnchor: bool, now: int): Window {
    if end <= start then Bad(EmptySlot)
    else if !pastAnchor && start <= now then Bad(StartsInThePast)
    else if until < Date(start) then Bad(EndsBeforeItStarts)
    else if end - start > WEEK then Bad(LongerThanAWeek)
    else if OccurrenceCount(start, until) > MAX_OCCURRENCES then Bad(TooMany)
    else if !pastAnchor then Good(Expansion(start, end, until))
    else
      var left := Future(Expansion(start, end, until), now);
      if left == [] then Bad(NothingLeft) else Good(left)
  }

  /** Slots in time order that do not overlap. */
  ghost predicate InOrder(slots: seq<Slot>) {
    && (forall i | 0 <= i < |slots| :: slots[i].start < slots[i].end)
    && (forall i, j | 0 <= i < j < |slots| :: slots[i].end <= slots[j].start)
  }

  lemma {:induction false} FutureStaysInOrder(slots: seq<Slot>, now: int)
    requires InOrder(slots)
    ensures InOrder(Future(slots, now))
  {
    if slots != [] {
      var tail := Future(slots[1..], now);
      FutureStaysInOrder(slots[1..], now);
      forall i | 0 <= i < |tail| ensures slots[0].end <= tail[i].start {
        assert tail[i] in tail;
      }
    }
  }

  /** An accepted window holds 1 to 104 disjoint occurrences, all of them
      weekly repetitions of the request, and none it should not leave out. */
  lemma AcceptedWindow(start: int, end: int, until: int, pastAnchor: bool, now: int)
    ensures var w := ValidatedWindow(start, end, until, pastAnchor, now);
            w.Good? ==>
              && 1 <= |w.occurrences| <= MAX_OCCURRENCES
              && InOrder(w.occurrences)
              && (forall o :: o in w.occurrences <==> o in Expansion(start, end, until) && o.start > now)
  {
    var w := ValidatedWindow(start, end, until, pastAnchor, now);
    if w.Good? {
      var all := Expansion(start, end, until);
      forall i, j | 0 <= i < j < |all| ensures all[i].end <= all[j].start {
        OccurrencesAreDisjoint(start, end, i, j);
      }
      FutureStaysInOrder(all, now);
      if !pastAnchor {
        forall i | 0 <= i < |all| ensures all[i].start > now {
          assert i * WEEK >= 0;
        }
      }
    }
  }

  /** The preview shows exactly the series the server would create, for every
      start and every end date; where it shows none, the server refuses. */
  lemma PreviewMatchesTheServer(start: int, end: int, until: int, now: int, preview: seq<int>)
    requires preview == if OccurrenceCount(start, until) > MAX_OCCURRENCES then [] else Starts(Expansion(start, start, until))
    ensures var w := ValidatedWindow(start, end, until, false, now);
            && (w.Good? ==> preview == Starts(w.occurrences) && preview != [])
            && (preview == [] <==> until < Date(start) || OccurrenceCount(start, until) > MAX_OCCURRENCES)
            && (w.Bad? && start < end && start > now && end - start <= WEEK ==> preview == [])
  {
    var w := ValidatedWindow(start, end, until, false, now);
    if w.Good? {
      assert forall i | 0 <= i < |preview| :: preview[i] == Starts(w.occurrences)[i];
    }
  }
}
