/** Request throttling: the sliding log of one process, and the fixed windows
    several processes share. Instants are in microseconds, windows in seconds. */
module RateLimit {
  import opened Model

  const SECOND: int := 1_000_000

  datatype Key = Key(tier: string, identity: string)

  datatype Verdict = Allowed(remaining: int) | Throttled(retryAfter: int)

  /** Whole seconds until `wait` microseconds have passed, one at least. */
  function RetryAfter(wait: int): int {
    Max(1, (wait + SECOND - 1) / SECOND)
  }

  lemma RetryAfterIsLeast(wait: int, seconds: int)
    requires wait > 0 && seconds >= 0
    ensures seconds * SECOND >= wait <==> seconds >= RetryAfter(wait)
  {
  }

  // ---- the sliding log ---------------------------------------------------------------

  /** Hits not yet out of the window. */
  function Recent(hits: seq<int>, cutoff: int): seq<int> {
    if hits != [] && hits[0] <= cutoff then Recent(hits[1..], cutoff) else hits
  }

  /** What a request at `now` gets. */
  function Judged(hits: seq<int>, limit: int, window: int, now: int): Verdict
    requires limit >= 1
  {
    var recent := Recent(hits, now - window);
    if |recent| >= limit then Throttled(RetryAfter(recent[0] + window - now)) else Allowed(limit - |recent| - 1)
  }

  /** The log it leaves: a refused request is not recorded. */
  function Logged(hits: seq<int>, limit: int, window: int, now: int): seq<int> {
    var recent := Recent(hits, now - window);
    if |recent| >= limit then recent else recent + [now]
  }

  /** The log of one client, and which of its requests were let through. */
  datatype Log = Log(hits: seq<int>, admitted: seq<int>)

  function OneServed(before: Log, limit: int, window: int, now: int): Log
    requires limit >= 1
  {
    Log(Logged(before.hits, limit, window, now),
        if Judged(before.hits, limit, window, now).Allowed? then before.admitted + [now] else before.admitted)
  }

  function Served(times: seq<int>, limit: int, window: int): Log
    requires limit >= 1
  {
    if times == [] then Log([], [])
    else OneServed(Served(times[..|times| - 1], limit, window), limit, window, times[|times| - 1])
  }

  lemma OneMoreServed(times: seq<int>, now: int, limit: int, window: int)
    requires limit >= 1
    ensures Served(times + [now], limit, window) == OneServed(Served(times, limit, window), limit, window, now)
  {
    assert (times + [now])[..|times|] == times;
  }

  lemma RecentStep(hits: seq<int>, cutoff: int)
    ensures Recent(hits, cutoff) == if hits != [] && hits[0] <= cutoff then Recent(hits[1..], cutoff) else hits
  {
  }

  class SlidingLimiter {
    var hits: map<Key, seq<int>>
    ghost var asked: map<Key, seq<int>>

    constructor ()
      ensures hits == map[] && asked == map[]
    {
      hits := map[];
      asked := map[];
    }

    function HitsOf(key: Key): seq<int>
      reads this
    {
      if key in hits then hits[key] else []
    }

    ghost function AskedBy(key: Key): seq<int>
      reads this
    {
      if key in asked then asked[key] else []
    }

    /** The log is what serving every request of `key` so far, with this limit
        and window, leaves. */
    ghost predicate Follows(key: Key, limit: int, window: int)
      requires limit >= 1
      reads this
    {
      HitsOf(key) == Served(AskedBy(key), limit, window).hits
    }

    method Check(key: Key, limit: int, windowSeconds: int, now: int) returns (verdict: Verdict)
      requires limit >= 1
      modifies this
      ensures verdict == Judged(old(HitsOf(key)), limit, windowSeconds * SECOND, now)
      ensures hits == old(hits)[key := Logged(old(HitsOf(key)), limit, windowSeconds * SECOND, now)]
      ensures asked == old(asked)[key := old(AskedBy(key)) + [now]]
      ensures old(Follows(key, limit, windowSeconds * SECOND)) ==> Follows(key, limit, windowSeconds * SECOND)
    {
      hide Served, Recent, RetryAfter;
      var window := windowSeconds * SECOND;
      var cutoff := now - window;
      var mine := HitsOf(key);
      while mine != [] && mine[0] <= cutoff
        invariant unchanged(this)
        invariant Recent(mine, cutoff) == Recent(HitsOf(key), cutoff)
      {
        RecentStep(mine, cutoff);
        mine := mine[1..];
      }
      RecentStep(mine, cutoff);
      assert mine == Recent(HitsOf(key), cutoff);
      OneMoreServed(AskedBy(key), now, limit, window);
      asked := asked[key := AskedBy(key) + [now]];
      if |mine| >= limit {
        hits := hits[key := mine];
        verdict := Throttled(RetryAfter(mine[0] + window - now));
      } else {
        mine := mine + [now];
        hits := hits[key := mine];
        verdict := Allowed(limit - |mine|);
      }
    }
  }

  // ---- what the sliding log guarantees ---------------------------------------------------

  ghost predicate InTimeOrder(times: seq<int>) {
    forall i, j | 0 <= i < j < |times| :: times[i] <= times[j]
  }

  /** How many of `times` lie in the window of that length from `from`. */
  function CountIn(times: seq<int>, from: int, window: int): nat {
    if times == [] then 0 else (if from <= times[0] < from + window then 1 else 0) + CountIn(times[1..], from, window)
  }

  function CountAfter(times: seq<int>, t: int): nat {
    if times == [] then 0 else (if times[0] > t then 1 else 0) + CountAfter(times[1..], t)
  }

  lemma {:induction false} CountOneMore(times: seq<int>, now: int, from: int, window: int, t: int)
    ensures CountIn(times + [now], from, window) == CountIn(times, from, window) + if from <= now < from + window then 1 else 0
    ensures CountAfter(times + [now], t) == CountAfter(times, t) + if now > t then 1 else 0
    ensures from > t ==> CountIn(times, from, window) <= CountAfter(times, t)
  {
    if times != [] {
      assert (times + [now])[1..] == times[1..] + [now];
      CountOneMore(times[1..], now, from, window, t);
    }
  }

  lemma {:induction false} AllAfter(times: seq<int>, t: int)
    requires InTimeOrder(times) && (times != [] ==> times[0] > t)
    ensures CountAfter(times, t) == |times|
  {
    if times != [] {
      AllAfter(times[1..], t);
    }
  }

  /** Dropping stale hits loses none of the window, and what is left is all of it. */
  lemma {:induction false} RecentIsTheWindow(hits: seq<int>, cutoff: int, t: int)
    requires InTimeOrder(hits) && t >= cutoff
    ensures var recent := Recent(hits, cutoff);
            && InTimeOrder(recent) && |recent| == CountAfter(hits, cutoff) <= |hits|
            && CountAfter(recent, t) == CountAfter(hits, t)
            && (recent != [] ==> recent[0] > cutoff && recent[|recent| - 1] == hits[|hits| - 1])
  {
    if hits != [] && hits[0] <= cutoff {
      RecentIsTheWindow(hits[1..], cutoff, t);
    } else {
      AllAfter(hits, cutoff);
    }
  }

  /** The log knows every admitted request the window can still see, and no
      window of this length saw more than `limit`. */
  ghost predicate LogIsExact(log: Log, last: int, limit: int, window: int) {
    && InTimeOrder(log.hits) && |log.hits| <= limit
    && (log.hits != [] ==> log.hits[|log.hits| - 1] <= last)
    && (forall t | t >= last - window :: CountAfter(log.admitted, t) == CountAfter(log.hits, t))
    && (forall from :: CountIn(log.admitted, from, window) <= limit)
  }

  lemma PruningKeepsTheLog(log: Log, limit: int, window: int, now: int)
    requires LogIsExact(log, now, limit, window)
    ensures var recent := Recent(log.hits, now - window);
            && LogIsExact(Log(recent, log.admitted), now, limit, window)
            && |recent| == CountAfter(log.admitted, now - window)
  {
    var recent := Recent(log.hits, now - window);
    hide CountIn, CountAfter, Recent, InTimeOrder;
    forall t | t >= now - window ensures CountAfter(log.admitted, t) == CountAfter(recent, t) {
      RecentIsTheWindow(log.hits, now - window, t);
    }
    RecentIsTheWindow(log.hits, now - window, now - window);
  }

  lemma AdmittingKeepsTheLog(log: Log, limit: int, window: int, now: int)
    requires LogIsExact(log, now, limit, window) && window > 0
    requires CountAfter(log.admitted, now - window) == |log.hits| < limit
    ensures LogIsExact(Log(log.hits + [now], log.admitted + [now]), now, limit, window)
  {
    hide CountIn, CountAfter;
    forall t | t >= now - window
      ensures CountAfter(log.admitted + [now], t) == CountAfter(log.hits + [now], t)
    {
      CountOneMore(log.admitted, now, 0, 0, t);
      CountOneMore(log.hits, now, 0, 0, t);
    }
    forall from ensures CountIn(log.admitted + [now], from, window) <= limit {
      CountOneMore(log.admitted, now, from, window, now - window);
    }
  }

  lemma LaterIsFine(log: Log, last: int, limit: int, window: int, later: int)
    requires LogIsExact(log, last, limit, window) && last <= later
    ensures LogIsExact(log, later, limit, window)
  {
    hide CountIn, CountAfter, InTimeOrder;
  }

  lemma OneRequestKeepsTheLog(before: Log, limit: int, window: int, now: int)
    requires limit >= 1 && window > 0 && LogIsExact(before, now, limit, window)
    ensures LogIsExact(OneServed(before, limit, window, now), now, limit, window)
  {
    hide LogIsExact, Recent, RetryAfter, CountIn, CountAfter;
    PruningKeepsTheLog(before, limit, window, now);
    var recent := Log(Recent(before.hits, now - window), before.admitted);
    if |recent.hits| < limit {
      AdmittingKeepsTheLog(recent, limit, window, now);
    }
  }

  lemma {:induction false} ServedIsExact(times: seq<int>, limit: int, window: int, last: int)
    requires limit >= 1 && window > 0 && InTimeOrder(times)
    requires times != [] ==> times[|times| - 1] <= last
    ensures LogIsExact(Served(times, limit, window), last, limit, window)
  {
    if times != [] {
      var n := |times| - 1;
      hide LogIsExact, OneServed;
      ServedIsExact(times[..n], limit, window, times[n]);
      OneRequestKeepsTheLog(Served(times[..n], limit, window), limit, window, times[n]);
      LaterIsFine(Served(times, limit, window), times[n], limit, window, last);
    } else {
      NothingServed(limit, window, last);
    }
  }

  lemma NothingServed(limit: int, window: int, last: int)
    requires limit >= 1
    ensures LogIsExact(Log([], []), last, limit, window)
  {
  }

  /** In every window of its length at most `limit` requests of a client get through. */
  lemma SlidingWindowHolds(times: seq<int>, limit: int, window: int, from: int)
    requires limit >= 1 && window > 0 && InTimeOrder(times)
    ensures CountIn(Served(times, limit, window).admitted, from, window) <= limit
  {
    hide Served, CountIn, CountAfter, InTimeOrder;
    ServedIsExact(times, limit, window, if times == [] then 0 else times[|times| - 1]);
  }

  lemma WaitingOutTheOldest(recent: seq<int>, limit: int, window: int, now: int, seconds: nat)
    requires limit >= 1 && InTimeOrder(recent) && |recent| == limit && recent[0] > now - window
    ensures Judged(recent, limit, window, now + seconds * SECOND).Allowed?
            <==> seconds >= RetryAfter(recent[0] + window - now)
  {
    var later := now + seconds * SECOND - window;
    RetryAfterIsLeast(recent[0] + window - now, seconds);
    RecentStep(recent, later);
    assert InTimeOrder(recent[1..]);
    RecentIsTheWindow(recent[1..], later, later);
    hide Recent, RetryAfter, InTimeOrder, CountAfter;
  }

  /** A request is refused exactly when `limit` others got through within the
      window before it, and the advice it carries is the least whole number of
      seconds after which a lone retry gets through. */
  lemma RefusalIsEarnedAndAdviceExact(times: seq<int>, limit: int, window: int, now: int, seconds: nat)
    requires limit >= 1 && window > 0 && InTimeOrder(times)
    requires times != [] ==> times[|times| - 1] <= now
    ensures var before := Served(times, limit, window);
            var verdict := Judged(before.hits, limit, window, now);
            && (verdict.Throttled? <==> CountAfter(before.admitted, now - window) == limit)
            && (verdict.Throttled? ==>
                  (Judged(Logged(before.hits, limit, window, now), limit, window, now + seconds * SECOND).Allowed?
                   <==> seconds >= verdict.retryAfter))
  {
    hide Served, CountIn, CountAfter, Recent, RetryAfter, InTimeOrder;
    var before := Served(times, limit, window);
    ServedIsExact(times, limit, window, now);
    PruningKeepsTheLog(before, limit, window, now);
    var recent := Recent(before.hits, now - window);
    RecentIsTheWindow(before.hits, now - window, now - window);
    if |recent| >= limit {
      WaitingOutTheOldest(recent, limit, window, now, seconds);
    }
  }
}
