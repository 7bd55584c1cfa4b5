/** Lapsed holds are reconciled lazily, by whoever comes first: a booking of the
    same room, a request of the same customer, or the sweeper. The order does
    not matter. */
module Reconciliation {
  import opened Model
  import opened Settlement
  import opened Lifecycle

  /** Reconciliations at one instant, one after another. */
  ghost function ReconciledAll(s: State, scopes: seq<Scope>, now: int): State
    decreases |scopes|
  {
    if scopes == [] then s else ReconciledAll(Reconciled(s, scopes[0], now), scopes[1..], now)
  }

  lemma ExpiringTwice(s: State, first: set<BookingId>, second: set<BookingId>)
    ensures ExpireAll(ExpireAll(s, first), second) == ExpireAll(s, first + second)
  {
    ReleasedTwice(s.ledger, first, second);
    hide Released;
    assert Expire(Expire(s.bookings, first), second) == Expire(s.bookings, first + second);
  }

  /** A hold already reconciled is not found again, and nobody else's is missed. */
  lemma StillLapsed(s: State, gone: set<BookingId>, scope: Scope, now: int)
    ensures LapsedIn(ExpireAll(s, gone).bookings, scope, now) == LapsedIn(s.bookings, scope, now) - gone
  {
    hide Released;
    var after := ExpireAll(s, gone).bookings;
    forall b | b in s.bookings
      ensures b in LapsedIn(after, scope, now) <==> b in LapsedIn(s.bookings, scope, now) - gone
    {
      assert b in gone ==> after[b].status == Expired;
    }
  }

  /** Reconciling twice, at any two instants in order, is reconciling at the later one. */
  lemma LaterSweepCoversEarlier(s: State, scope: Scope, earlier: int, now: int)
    requires earlier <= now
    ensures Reconciled(Reconciled(s, scope, earlier), Everywhere, now) == Reconciled(s, Everywhere, now)
    ensures Reconciled(Reconciled(s, scope, now), scope, now) == Reconciled(s, scope, now)
  {
    hide Released, Expire;
    var gone, all := LapsedIn(s.bookings, scope, earlier), LapsedIn(s.bookings, Everywhere, now);
    StillLapsed(s, gone, Everywhere, now);
    ExpiringTwice(s, gone, all - gone);
    assert gone + (all - gone) == all;
    var here := LapsedIn(s.bookings, scope, now);
    StillLapsed(s, here, scope, now);
    ExpiringTwice(s, here, here - here);
    assert here + (here - here) == here;
  }

  /** Any reconciliations, in any order, followed by the sweeper, leave the same
      statuses, debit rows and balances as the sweeper alone: every lapsed hold
      gives its hours back once. */
  lemma {:induction false} ReconcilingIsConfluent(s: State, scopes: seq<Scope>, now: int)
    ensures Reconciled(ReconciledAll(s, scopes, now), Everywhere, now) == Reconciled(s, Everywhere, now)
    decreases |scopes|
  {
    if scopes != [] {
      hide Reconciled;
      ReconcilingIsConfluent(Reconciled(s, scopes[0], now), scopes[1..], now);
      LaterSweepCoversEarlier(s, scopes[0], now, now);
    }
  }

  /** Two reconciliations commute. */
  lemma ReconcilingCommutes(s: State, one: Scope, other: Scope, now: int)
    ensures Reconciled(Reconciled(s, one, now), other, now) == Reconciled(Reconciled(s, other, now), one, now)
  {
    hide Released, Expire;
    var a, b := LapsedIn(s.bookings, one, now), LapsedIn(s.bookings, other, now);
    StillLapsed(s, a, other, now);
    StillLapsed(s, b, one, now);
    ExpiringTwice(s, a, b - a);
    ExpiringTwice(s, b, a - b);
    assert a + (b - a) == b + (a - b);
  }
}
