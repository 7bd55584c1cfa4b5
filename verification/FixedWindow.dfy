/** Fixed-window counters in one table shared by every process, and the cleanup
    with which each process now and then drops old windows. */
module FixedWindow {
  import opened Model
  import opened RateLimit

  /** The cleanup drops windows that began longer ago than this. */
  const CLEANUP_AGE: int := 2 * HOUR
  const CLEANUP_EVERY: int := 600 * SECOND

  datatype WindowKey = WindowKey(key: Key, start: int)

  function WindowStart(now: int, window: int): int
    requires window > 0
  {
    now - now % window
  }

  function Counted(rows: map<WindowKey, int>, k: WindowKey): map<WindowKey, int> {
    rows[k := (if k in rows then rows[k] else 0) + 1]
  }

  function Cleaned(rows: map<WindowKey, int>, now: int): map<WindowKey, int> {
    map k | k in rows && k.start >= now - CLEANUP_AGE :: rows[k]
  }

  function JudgedFixed(count: int, limit: int, start: int, window: int, now: int): Verdict {
    if count > limit then Throttled(RetryAfter(start + window - now)) else Allowed(limit - count)
  }

  // ---- runs of one client ------------------------------------------------------------------

  /** What touches one client's counters: its own requests, and any process's cleanup. */
  datatype Tick = Ask(now: int) | Clean(now: int)

  /** The client's windows with their counts, and its requests let through. */
  datatype Tally = Tally(windows: map<int, int>, admitted: seq<int>)

  function CountOf(windows: map<int, int>, start: int): int {
    if start in windows then windows[start] else 0
  }

  function Step(before: Tally, limit: int, window: int, tick: Tick): Tally
    requires window > 0
  {
    match tick
    case Ask(now) =>
      var start := WindowStart(now, window);
      var count := CountOf(before.windows, start) + 1;
      Tally(before.windows[start := count], if count > limit then before.admitted else before.admitted + [now])
    case Clean(now) =>
      before.(windows := map start | start in before.windows && start >= now - CLEANUP_AGE :: before.windows[start])
  }

  function Run(ticks: seq<Tick>, limit: int, window: int): Tally
    requires window > 0
  {
    if ticks == [] then Tally(map[], [])
    else Step(Run(ticks[..|ticks| - 1], limit, window), limit, window, ticks[|ticks| - 1])
  }

  // ---- the limiter -----------------------------------------------------------------------------

  /** What has happened to the table: a request of some client, or the cleanup. */
  datatype Happening = Asked(key: Key, now: int) | CleanedUp(now: int)

  function WithTick(ticks: seq<Tick>, h: Happening, key: Key): seq<Tick> {
    match h
    case Asked(asker, now) => if asker == key then ticks + [Ask(now)] else ticks
    case CleanedUp(now) => ticks + [Clean(now)]
  }

  /** The part of a history that touches one client's counters. */
  function TicksOf(history: seq<Happening>, key: Key): seq<Tick> {
    if history == [] then [] else WithTick(TicksOf(history[..|history| - 1], key), history[|history| - 1], key)
  }

  /** One client's windows in the shared table. */
  function WindowsOf(rows: map<WindowKey, int>, key: Key): map<int, int> {
    map k | k in rows && k.key == key :: k.start := rows[k]
  }

  lemma TicksOfOneMore(history: seq<Happening>, h: Happening, key: Key)
    ensures TicksOf(history + [h], key) == WithTick(TicksOf(history, key), h, key)
  {
    assert (history + [h])[..|history|] == history;
  }

  lemma RunOneMore(ticks: seq<Tick>, tick: Tick, limit: int, window: int)
    requires window > 0
    ensures Run(ticks + [tick], limit, window) == Step(Run(ticks, limit, window), limit, window, tick)
  {
    assert (ticks + [tick])[..|ticks|] == ticks;
  }

  /** The table says of the client's windows what replaying its ticks does. */
  ghost predicate Replays(rows: map<WindowKey, int>, history: seq<Happening>, key: Key, limit: int, window: int)
    requires window > 0
  {
    WindowsOf(rows, key) == Run(TicksOf(history, key), limit, window).windows
  }

  lemma CountedWindows(rows: map<WindowKey, int>, asker: Key, start: int, key: Key)
    ensures var m := WindowsOf(rows, key);
            WindowsOf(Counted(rows, WindowKey(asker, start)), key)
            == if key == asker then m[start := CountOf(m, start) + 1] else m
  {
    var k := WindowKey(asker, start);
    var m, m' := WindowsOf(rows, key), WindowsOf(Counted(rows, k), key);
    forall t ensures t in m' <==> t in m || (key == asker && t == start) {
      WindowIsIn(rows, key, t);
      WindowIsIn(Counted(rows, k), key, t);
    }
    forall t | t in m' ensures m'[t] == if key == asker && t == start then CountOf(m, start) + 1 else m[t] {
      WindowIsIn(rows, key, t);
      WindowIsIn(Counted(rows, k), key, t);
    }
  }

  lemma WindowIsIn(rows: map<WindowKey, int>, key: Key, start: int)
    ensures start in WindowsOf(rows, key) <==> WindowKey(key, start) in rows
    ensures WindowKey(key, start) in rows ==> WindowsOf(rows, key)[start] == rows[WindowKey(key, start)]
  {
  }

  lemma CleanedWindows(rows: map<WindowKey, int>, now: int, key: Key)
    ensures var m := WindowsOf(rows, key);
            WindowsOf(Cleaned(rows, now), key) == map start | start in m && start >= now - CLEANUP_AGE :: m[start]
  {
    var m, m' := WindowsOf(rows, key), WindowsOf(Cleaned(rows, now), key);
    forall t ensures t in m' <==> t in m && t >= now - CLEANUP_AGE {
      WindowIsIn(rows, key, t);
      WindowIsIn(Cleaned(rows, now), key, t);
    }
    forall t | t in m' ensures m'[t] == m[t] {
      WindowIsIn(rows, key, t);
      WindowIsIn(Cleaned(rows, now), key, t);
    }
  }

  lemma ReplaysMeans(rows: map<WindowKey, int>, history: seq<Happening>, key: Key, limit: int, window: int)
    requires window > 0
    ensures Replays(rows, history, key, limit, window)
            <==> WindowsOf(rows, key) == Run(TicksOf(history, key), limit, window).windows
  {
  }

  lemma WithTickIs(ticks: seq<Tick>, asker: Key, now: int, key: Key)
    ensures WithTick(ticks, Asked(asker, now), key) == if asker == key then ticks + [Ask(now)] else ticks
    ensures WithTick(ticks, CleanedUp(now), key) == ticks + [Clean(now)]
  {
  }

  lemma StepIs(before: Tally, limit: int, window: int, now: int)
    requires window > 0
    ensures var start := WindowStart(now, window);
            var count := CountOf(before.windows, start) + 1;
            Step(before, limit, window, Ask(now))
            == Tally(before.windows[start := count], if count > limit then before.admitted else before.admitted + [now])
    ensures Step(before, limit, window, Clean(now))
            == before.(windows := map start | start in before.windows && start >= now - CLEANUP_AGE :: before.windows[start])
  {
    hide WindowStart, CountOf;
  }

  /** A counted request is one `Ask` for its own client and nothing for any other. */
  lemma CountingReplays(rows: map<WindowKey, int>, history: seq<Happening>, asker: Key, now: int, key: Key, limit: int,
                        window: int, asked: int)
    requires window > 0 && asked > 0 && (key == asker ==> asked == window)
    requires Replays(rows, history, key, limit, window)
    ensures Replays(Counted(rows, WindowKey(asker, WindowStart(now, asked))), history + [Asked(asker, now)], key, limit, window)
  {
    hide *;
    var k := WindowKey(asker, WindowStart(now, asked));
    ReplaysMeans(rows, history, key, limit, window);
    ReplaysMeans(Counted(rows, k), history + [Asked(asker, now)], key, limit, window);
    TicksOfOneMore(history, Asked(asker, now), key);
    CountedWindows(rows, asker, WindowStart(now, asked), key);
    WithTickIs(TicksOf(history, key), asker, now, key);
    if key == asker {
      RunOneMore(TicksOf(history, key), Ask(now), limit, window);
      StepIs(Run(TicksOf(history, key), limit, window), limit, window, now);
    }
  }

  /** A cleanup is one `Clean` for every client. */
  lemma CleaningReplays(rows: map<WindowKey, int>, history: seq<Happening>, now: int, key: Key, limit: int, window: int)
    requires window > 0 && Replays(rows, history, key, limit, window)
    ensures Replays(Cleaned(rows, now), history + [CleanedUp(now)], key, limit, window)
  {
    hide *;
    ReplaysMeans(rows, history, key, limit, window);
    ReplaysMeans(Cleaned(rows, now), history + [CleanedUp(now)], key, limit, window);
    TicksOfOneMore(history, CleanedUp(now), key);
    CleanedWindows(rows, now, key);
    WithTickIs(TicksOf(history, key), key, now, key);
    RunOneMore(TicksOf(history, key), Clean(now), limit, window);
    StepIs(Run(TicksOf(history, key), limit, window), limit, window, now);
  }

  /** The table every process writes to, and everything that has happened to it,
      whichever process did it. Each method is one statement. */
  class CounterTable {
    var rows: map<WindowKey, int>
    ghost var history: seq<Happening>

    constructor ()
      ensures rows == map[] && history == []
      ensures forall key, limit, window | window > 0 :: Follows(key, limit, window)
    {
      rows := map[];
      history := [];
    }

    /** The client's counters are those of the run of everything that touched them. */
    ghost predicate Follows(key: Key, limit: int, window: int)
      requires window > 0
      reads this
    {
      Replays(rows, history, key, limit, window)
    }

    /** The client's requests that the run lets through. */
    ghost function Admitted(key: Key, limit: int, window: int): seq<int>
      requires window > 0
      reads this
    {
      Run(TicksOf(history, key), limit, window).admitted
    }

    /** The client's row created or incremented, and its count. Its counters go
        on following its run, everybody else's theirs. */
    method Count(key: Key, now: int, window: int) returns (count: int)
      requires window > 0
      modifies this
      ensures rows == Counted(old(rows), WindowKey(key, WindowStart(now, window)))
      ensures WindowKey(key, WindowStart(now, window)) in rows && count == rows[WindowKey(key, WindowStart(now, window))]
      ensures history == old(history) + [Asked(key, now)]
      ensures forall other, l, w | w > 0 && (other == key ==> w == window) :: old(Follows(other, l, w)) ==> Follows(other, l, w)
      ensures forall limit :: old(Follows(key, limit, window)) ==>
                Admitted(key, limit, window) == old(Admitted(key, limit, window)) + if count <= limit then [now] else []
    {
      hide *;
      var k := WindowKey(key, WindowStart(now, window));
      ghost var rows0, history0 := rows, history;
      rows := Counted(rows, k);
      history := history + [Asked(key, now)];
      CountedIsThere(rows0, k);
      count := rows[k];
      CountingReplaysAll(rows0, history0, key, now, window);
      AdmittedSoFar(rows0, history0, key, now, window);
      FollowsMeans();
    }

    /** Old windows dropped. Everybody's counters go on following their runs, and
        nobody gets through by it. */
    method CleanUp(databaseNow: int)
      modifies this
      ensures rows == Cleaned(old(rows), databaseNow) && history == old(history) + [CleanedUp(databaseNow)]
      ensures forall key, limit, window | window > 0 :: old(Follows(key, limit, window)) ==> Follows(key, limit, window)
      ensures forall key, limit, window | window > 0 :: Admitted(key, limit, window) == old(Admitted(key, limit, window))
    {
      hide *;
      ghost var rows0, history0 := rows, history;
      rows := Cleaned(rows, databaseNow);
      history := history + [CleanedUp(databaseNow)];
      CleaningReplaysAll(rows0, history0, databaseNow);
      FollowsMeans();
    }

    twostate lemma FollowsMeans()
      ensures forall key, limit, window | window > 0 ::
                && (Follows(key, limit, window) <==> Replays(rows, history, key, limit, window))
                && (old(Follows(key, limit, window)) <==> Replays(old(rows), old(history), key, limit, window))
                && Admitted(key, limit, window) == Run(TicksOf(history, key), limit, window).admitted
                && old(Admitted(key, limit, window)) == Run(TicksOf(old(history), key), limit, window).admitted
    {
    }
  }

  /** One process: the table it shares with the others, and its own deadline for
      the next cleanup. */
  class FixedWindowLimiter {
    const table: CounterTable
    var nextCleanup: int

    constructor (table: CounterTable)
      ensures this.table == table && nextCleanup == 0
    {
      this.table := table;
      nextCleanup := 0;
    }

    /** One throttled request, whatever the other processes did to the table
        before: the count comes back before the cleanup runs. The client's
        counters go on following its run, everybody else's theirs, and the
        verdict is to let the request through exactly when the run does. */
    method Check(key: Key, limit: int, windowSeconds: int, now: int, monotonic: int, databaseNow: int)
      returns (verdict: Verdict)
      requires windowSeconds >= 1
      modifies this, table
      ensures var k := WindowKey(key, WindowStart(now, windowSeconds * SECOND));
              var counted := Counted(old(table.rows), k);
              && verdict == JudgedFixed(counted[k], limit, k.start, windowSeconds * SECOND, now)
              && table.rows == (if monotonic >= old(nextCleanup) then Cleaned(counted, databaseNow) else counted)
              && nextCleanup == (if monotonic >= old(nextCleanup) then monotonic + CLEANUP_EVERY else old(nextCleanup))
      ensures table.history == old(table.history) + [Asked(key, now)]
                               + if monotonic >= old(nextCleanup) then [CleanedUp(databaseNow)] else []
      ensures forall other, l, w | w > 0 && (other == key ==> w == windowSeconds * SECOND) ::
                old(table.Follows(other, l, w)) ==> table.Follows(other, l, w)
      ensures old(table.Follows(key, limit, windowSeconds * SECOND)) ==>
                table.Admitted(key, limit, windowSeconds * SECOND)
                == old(table.Admitted(key, limit, windowSeconds * SECOND)) + if verdict.Allowed? then [now] else []
    {
      hide *;
      WindowsAreLong(windowSeconds);
      var window := windowSeconds * SECOND;
      var start := WindowStart(now, window);
      var count := table.Count(key, now, window);
      if monotonic >= nextCleanup {
        nextCleanup := monotonic + CLEANUP_EVERY;
        table.CleanUp(databaseNow);
      }
      JudgedIs(count, limit, start, window, now);
      if count > limit {
        return Throttled(RetryAfter(start + window - now));
      }
      return Allowed(limit - count);
    }
  }

  lemma WindowsAreLong(windowSeconds: int)
    requires windowSeconds >= 1
    ensures windowSeconds * SECOND > 0
  {
  }

  lemma CountedIsThere(rows: map<WindowKey, int>, k: WindowKey)
    ensures k in Counted(rows, k)
    ensures Counted(rows, k)[k] == (if k in rows then rows[k] else 0) + 1
  {
  }

  lemma JudgedIs(count: int, limit: int, start: int, window: int, now: int)
    ensures JudgedFixed(count, limit, start, window, now)
            == if count > limit then Throttled(RetryAfter(start + window - now)) else Allowed(limit - count)
  {
  }

  lemma CountingReplaysAll(rows: map<WindowKey, int>, history: seq<Happening>, asker: Key, now: int, asked: int)
    requires asked > 0
    ensures forall key, limit, window | window > 0 && (key == asker ==> window == asked) ::
              Replays(rows, history, key, limit, window) ==>
                Replays(Counted(rows, WindowKey(asker, WindowStart(now, asked))), history + [Asked(asker, now)], key, limit, window)
  {
    hide *;
    forall key, limit, window | window > 0 && (key == asker ==> window == asked) && Replays(rows, history, key, limit, window)
      ensures Replays(Counted(rows, WindowKey(asker, WindowStart(now, asked))), history + [Asked(asker, now)], key, limit, window)
    {
      CountingReplays(rows, history, asker, now, key, limit, window, asked);
    }
  }

  lemma CleaningReplaysAll(rows: map<WindowKey, int>, history: seq<Happening>, now: int)
    ensures forall key, limit, window | window > 0 ::
              && (Replays(rows, history, key, limit, window) ==>
                    Replays(Cleaned(rows, now), history + [CleanedUp(now)], key, limit, window))
              && Run(TicksOf(history + [CleanedUp(now)], key), limit, window).admitted
                 == Run(TicksOf(history, key), limit, window).admitted
  {
    hide *;
    forall key, limit, window | window > 0
      ensures && (Replays(rows, history, key, limit, window) ==>
                    Replays(Cleaned(rows, now), history + [CleanedUp(now)], key, limit, window))
              && Run(TicksOf(history + [CleanedUp(now)], key), limit, window).admitted
                 == Run(TicksOf(history, key), limit, window).admitted
    {
      if Replays(rows, history, key, limit, window) { CleaningReplays(rows, history, now, key, limit, window); }
      CleaningAdmitsNobody(history, now, key, limit, window);
    }
  }

  lemma CleaningAdmitsNobody(history: seq<Happening>, now: int, key: Key, limit: int, window: int)
    requires window > 0
    ensures Run(TicksOf(history + [CleanedUp(now)], key), limit, window).admitted
            == Run(TicksOf(history, key), limit, window).admitted
  {
    hide *;
    TicksOfOneMore(history, CleanedUp(now), key);
    WithTickIs(TicksOf(history, key), key, now, key);
    RunOneMore(TicksOf(history, key), Clean(now), limit, window);
    StepIs(Run(TicksOf(history, key), limit, window), limit, window, now);
  }

  lemma CountIs(rows: map<WindowKey, int>, key: Key, start: int)
    ensures CountOf(WindowsOf(rows, key), start) == if WindowKey(key, start) in rows then rows[WindowKey(key, start)] else 0
  {
    WindowIsIn(rows, key, start);
  }

  /** The run lets the request through exactly when its count stays within the limit. */
  lemma AdmittedSoFar(rows: map<WindowKey, int>, history: seq<Happening>, key: Key, now: int, window: int)
    requires window > 0
    ensures var k := WindowKey(key, WindowStart(now, window));
            var count := (if k in rows then rows[k] else 0) + 1;
            forall limit :: Replays(rows, history, key, limit, window) ==>
              Run(TicksOf(history + [Asked(key, now)], key), limit, window).admitted
              == Run(TicksOf(history, key), limit, window).admitted + if count <= limit then [now] else []
  {
    hide *;
    var ticks := TicksOf(history, key);
    TicksOfOneMore(history, Asked(key, now), key);
    WithTickIs(ticks, key, now, key);
    CountIs(rows, key, WindowStart(now, window));
    forall limit | Replays(rows, history, key, limit, window)
      ensures Run(TicksOf(history + [Asked(key, now)], key), limit, window).admitted
              == Run(ticks, limit, window).admitted
                 + if CountOf(WindowsOf(rows, key), WindowStart(now, window)) + 1 <= limit then [now] else []
    {
      ReplaysMeans(rows, history, key, limit, window);
      RunOneMore(ticks, Ask(now), limit, window);
      StepIs(Run(ticks, limit, window), limit, window, now);
    }
  }

  // ---- what orders a run --------------------------------------------------------------------------

  ghost predicate InOrder(ticks: seq<Tick>) {
    forall i, j | 0 <= i < j < |ticks| :: ticks[i].now <= ticks[j].now
  }

  /** One window's count: exact while its row is there, and the row is only
      gone if nothing was let through or the window is over. */
  ghost predicate WindowIsExact(tally: Tally, last: int, limit: int, window: int, start: int) {
    var let := CountIn(tally.admitted, start, window);
    && let <= limit
    && (start in tally.windows ==> tally.windows[start] >= 0 && let == Min(tally.windows[start], limit) && start <= last)
    && (start !in tally.windows ==> let == 0 || start + window <= last)
  }

  ghost predicate TallyIsExact(tally: Tally, last: int, limit: int, window: int)
    requires window > 0
  {
    forall start {:trigger WindowIsExact(tally, last, limit, window, start)} | start == WindowStart(start, window) ::
      WindowIsExact(tally, last, limit, window, start)
  }

  lemma Distributes(window: int, a: int)
    ensures window * (a + 1) == window * a + window
  {
  }

  lemma {:induction false} NextMultiple(window: int, a: int, b: int)
    requires window > 0 && a < b
    ensures window * b >= window * a + window
    decreases b - a
  {
    Distributes(window, b - 1);
    if a < b - 1 {
      NextMultiple(window, a, b - 1);
    }
  }

  /** Different multiples are a window apart, whichever is the later one. */
  lemma MultiplesApart(window: int, a: int, b: int)
    requires window > 0
    ensures a < b ==> window * b >= window * a + window
    ensures b < a ==> window * a >= window * b + window
  {
    if a < b { NextMultiple(window, a, b); }
    if b < a { NextMultiple(window, b, a); }
  }

  lemma WindowStartIs(t: int, window: int)
    requires window > 0
    ensures WindowStart(t, window) == window * (t / window) <= t < WindowStart(t, window) + window
  {
  }

  lemma MultipleIsItsOwn(k: int, window: int, t: int)
    requires window > 0 && t == window * k
    ensures WindowStart(t, window) == t
  {
    hide *;
    WindowStartIs(t, window);
    MultiplesApart(window, k, t / window);
  }

  lemma WindowOf(now: int, window: int, start: int)
    requires window > 0 && start == WindowStart(start, window)
    ensures start <= now < start + window <==> start == WindowStart(now, window)
    ensures WindowStart(now, window) == WindowStart(WindowStart(now, window), window)
    ensures WindowStart(start + window, window) == start + window
  {
    hide *;
    var a, b := start / window, now / window;
    WindowStartIs(now, window);
    WindowStartIs(start, window);
    MultiplesApart(window, a, b);
    Distributes(window, a);
    MultipleIsItsOwn(a + 1, window, start + window);
    MultipleIsItsOwn(b, window, WindowStart(now, window));
  }

  // ---- what a run guarantees ------------------------------------------------------------------

  lemma AskingIsExact(before: Tally, limit: int, window: int, now: int, start: int)
    requires limit >= 0 && window > 0 && start == WindowStart(start, window)
    requires WindowIsExact(before, now, limit, window, start)
    ensures WindowIsExact(Step(before, limit, window, Ask(now)), now, limit, window, start)
  {
    WindowOf(now, window, start);
    CountOneMore(before.admitted, now, start, window, 0);
    hide WindowStart, CountIn;
  }

  lemma CleaningIsExact(before: Tally, limit: int, window: int, now: int, start: int)
    requires limit >= 0 && 0 < window <= CLEANUP_AGE
    requires WindowIsExact(before, now, limit, window, start)
    ensures WindowIsExact(Step(before, limit, window, Clean(now)), now, limit, window, start)
  {
    hide CountIn;
  }

  lemma LaterIsExact(tally: Tally, last: int, limit: int, window: int, now: int)
    requires window > 0 && TallyIsExact(tally, last, limit, window) && last <= now
    ensures TallyIsExact(tally, now, limit, window)
  {
    forall start | start == WindowStart(start, window) ensures WindowIsExact(tally, now, limit, window, start) {
      assert WindowIsExact(tally, last, limit, window, start);
    }
  }

  lemma {:induction false} RunIsExact(ticks: seq<Tick>, limit: int, window: int, last: int)
    requires limit >= 0 && 0 < window <= CLEANUP_AGE && InOrder(ticks)
    requires ticks != [] ==> ticks[|ticks| - 1].now <= last
    ensures TallyIsExact(Run(ticks, limit, window), last, limit, window)
  {
    if ticks == [] {
      forall start | start == WindowStart(start, window) ensures WindowIsExact(Tally(map[], []), last, limit, window, start) {}
    } else {
      var n := |ticks| - 1;
      var before, now := Run(ticks[..n], limit, window), ticks[n].now;
      RunIsExact(ticks[..n], limit, window, now);
      forall start | start == WindowStart(start, window)
        ensures WindowIsExact(Run(ticks, limit, window), now, limit, window, start)
      {
        assert WindowIsExact(before, now, limit, window, start);
        hide Step, WindowIsExact;
        match ticks[n]
        case Ask(_) => AskingIsExact(before, limit, window, now, start);
        case Clean(_) => CleaningIsExact(before, limit, window, now, start);
      }
      hide Run, WindowIsExact;
      LaterIsExact(Run(ticks, limit, window), now, limit, window, last);
    }
  }

  /** No fixed window of a client lets more than `limit` requests through. */
  lemma FixedWindowHolds(ticks: seq<Tick>, limit: int, window: int, start: int)
    requires limit >= 0 && 0 < window <= CLEANUP_AGE && InOrder(ticks) && start == WindowStart(start, window)
    ensures CountIn(Run(ticks, limit, window).admitted, start, window) <= limit
  {
    var last := if ticks == [] then 0 else ticks[|ticks| - 1].now;
    RunIsExact(ticks, limit, window, last);
    hide Run, CountIn;
    assert WindowIsExact(Run(ticks, limit, window), last, limit, window, start);
  }

  lemma {:induction false} TwoWindowsCover(times: seq<int>, from: int, window: int, start: int)
    requires window > 0 && start <= from < start + window
    ensures CountIn(times, from, window) <= CountIn(times, start, window) + CountIn(times, start + window, window)
  {
    if times != [] {
      TwoWindowsCover(times[1..], from, window, start);
    }
  }

  /** Any interval as long as the window lets at most twice the limit through. */
  lemma AnyIntervalHoldsTwice(ticks: seq<Tick>, limit: int, window: int, from: int)
    requires limit >= 0 && 0 < window <= CLEANUP_AGE && InOrder(ticks)
    ensures CountIn(Run(ticks, limit, window).admitted, from, window) <= 2 * limit
  {
    var start := WindowStart(from, window);
    WindowOf(from, window, start) by { WindowOf(from, window, 0) by { assert WindowStart(0, window) == 0; } }
    hide Run, CountIn, WindowStart, InOrder;
    FixedWindowHolds(ticks, limit, window, start);
    FixedWindowHolds(ticks, limit, window, start + window);
    TwoWindowsCover(Run(ticks, limit, window).admitted, from, window, start);
  }

  /** The cleanup forgets nothing that still counts if and only if no window is
      longer than two hours. */
  lemma CleanupIsHarmlessUpToTwoHours(windowSeconds: int)
    requires windowSeconds >= 1
    ensures var window := windowSeconds * SECOND;
            (forall ticks, limit, start | limit >= 0 && InOrder(ticks) && start == WindowStart(start, window) ::
               CountIn(Run(ticks, limit, window).admitted, start, window) <= limit)
            <==> window <= CLEANUP_AGE
  {
    var window := windowSeconds * SECOND;
    if window <= CLEANUP_AGE {
      forall ticks, limit, start | limit >= 0 && InOrder(ticks) && start == WindowStart(start, window)
        ensures CountIn(Run(ticks, limit, window).admitted, start, window) <= limit
      {
        FixedWindowHolds(ticks, limit, window, start);
      }
    } else {
      TooLongAWindowForgets(window);
      assert WindowStart(0, window) == 0;
    }
  }

  lemma FirstWindow(t: int, window: int)
    requires 0 <= t < window
    ensures WindowStart(t, window) == 0
  {
    WindowOf(t, window, 0) by { assert WindowStart(0, window) == 0; }
  }

  lemma TooLongAWindowForgets(window: int)
    requires window > CLEANUP_AGE + 1
    ensures var ticks := [Ask(0), Clean(CLEANUP_AGE + 1), Ask(CLEANUP_AGE + 1)];
            InOrder(ticks) && CountIn(Run(ticks, 1, window).admitted, 0, window) == 2
  {
    var late := CLEANUP_AGE + 1;
    var ticks := [Ask(0), Clean(late), Ask(late)];
    FirstWindow(0, window);
    FirstWindow(late, window);
    hide WindowStart;
    var one, two := [Ask(0)], [Ask(0), Clean(late)];
    assert one[..0] == [] && two[..1] == one && ticks[..2] == two;
    assert Run(one, 1, window) == Step(Tally(map[], []), 1, window, Ask(0));
    assert Run(one, 1, window) == Tally(map[0 := 1], [0]);
    assert Run(two, 1, window) == Tally(map[], [0]);
    assert Run(ticks, 1, window).admitted == [0] + [late];
    CountOneMore([0], late, 0, window, 0);
    CountOneMore([], 0, 0, window, 0);
    assert [] + [0] == [0];
  }

  lemma LaterWindows(now: int, window: int, wait: int)
    requires window > 0 && wait >= 0
    ensures var start, next := WindowStart(now, window), WindowStart(now + wait, window);
            && start <= now < start + window && next == WindowStart(next, window) && start == WindowStart(start, window)
            && (next == start <==> now + wait < start + window)
            && (next != start ==> next > now)
  {
    var start, next := WindowStart(now, window), WindowStart(now + wait, window);
    assert WindowStart(0, window) == 0;
    WindowOf(now, window, 0);
    WindowOf(now + wait, window, 0);
    WindowOf(now, window, start);
    WindowOf(now + wait, window, start);
    WindowOf(now + wait, window, next);
    WindowOf(now, window, next);
    hide WindowStart;
  }

  /** The advice of a refusal is the least whole number of seconds after which a
      lone retry gets through: when the window is over, and not before. */
  lemma FixedAdviceIsExact(ticks: seq<Tick>, limit: int, window: int, now: int, seconds: nat)
    requires limit >= 1 && 0 < window <= CLEANUP_AGE && InOrder(ticks)
    requires ticks != [] ==> ticks[|ticks| - 1].now <= now
    ensures var before := Run(ticks, limit, window);
            var start := WindowStart(now, window);
            var verdict := JudgedFixed(CountOf(before.windows, start) + 1, limit, start, window, now);
            verdict.Throttled? ==>
              var after := Step(before, limit, window, Ask(now));
              var later := now + seconds * SECOND;
              (JudgedFixed(CountOf(after.windows, WindowStart(later, window)) + 1, limit,
                           WindowStart(later, window), window, later).Allowed?
               <==> seconds >= verdict.retryAfter)
  {
    hide Run, CountIn, WindowStart, RetryAfter, InOrder;
    var before := Run(ticks, limit, window);
    var start := WindowStart(now, window);
    RunIsExact(ticks, limit, window, now);
    LaterWindows(now, window, seconds * SECOND);
    var next := WindowStart(now + seconds * SECOND, window);
    assert WindowIsExact(before, now, limit, window, next);
    hide TallyIsExact;
    RetryAfterIsLeast(start + window - now, seconds);
  }
}
