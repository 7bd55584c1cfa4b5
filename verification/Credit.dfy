/** Money into hours: the credit a cancelled booking leaves in the bank, and
    taking it back when the booking is reinstated. */
module Credit {
  import opened Model
  import opened Ledgers

  const CREDIT_VALIDITY: int := 365 * DAY
  /** The ledger's columns hold at most 999.99 h. */
  const MAX_LEDGER_HOURS: int := 99_999

  /** `n / d` rounded to the nearest integer, halves up. */
  function RoundHalfUp(n: int, d: int): int
    requires n >= 0 && d > 0
  {
    (2 * n + d) / (2 * d)
  }

  lemma RoundHalfUpIsNearest(n: int, d: int)
    requires n >= 0 && d > 0
    ensures 2 * d * RoundHalfUp(n, d) <= 2 * n + d < 2 * d * RoundHalfUp(n, d) + 2 * d
  {
    var q := (2 * n + d) / (2 * d);
    assert 2 * n + d == (2 * d) * q + (2 * n + d) % (2 * d);
  }

  /** Cents charged for `hours` hundredths of an hour at `rate` cents an hour. */
  function AmountFor(hours: int, rate: int): int
    requires hours >= 0 && rate >= 0
  {
    RoundHalfUp(hours * rate, ONE_HOUR)
  }

  /** Hundredths of an hour that `amount` cents buy at `rate`. */
  function CreditHours(amount: int, rate: int): int {
    if rate <= 0 || amount <= 0 then 0 else RoundHalfUp(amount * ONE_HOUR, rate)
  }

  /** Hours to cents and back is the identity from 1.00 an hour upwards. */
  lemma CreditIsExact(hours: int, rate: int)
    requires hours >= 0 && rate >= 100
    ensures CreditHours(AmountFor(hours, rate), rate) == hours
  {
    var a, x := AmountFor(hours, rate), hours * rate;
    RoundHalfUpIsNearest(x, ONE_HOUR);
    assert -50 < 100 * a - x <= 50;
    if hours == 0 {
      assert x == 0 && a == 0;
    } else {
      assert x >= rate;
      if rate == 100 {
        assert x == 100 * hours;
      }
      assert rate * hours == x;
      RoundsTo(a * ONE_HOUR, rate, hours);
    }
  }

  lemma MultiplesAreFar(d: int, k: int)
    requires d > 0
    ensures k >= 1 ==> d * k >= d
    ensures k <= -1 ==> d * k <= -d
  {
    if k >= 1 {
      assert d * k - d == d * (k - 1);
    } else if k <= -1 {
      assert d * k + d == d * (k + 1);
    }
  }

  /** An integer less than half a unit away is what rounding finds. */
  lemma RoundsTo(n: int, d: int, h: int)
    requires n >= 0 && d > 0 && -d < 2 * (n - d * h) < d
    ensures RoundHalfUp(n, d) == h
  {
    var c := RoundHalfUp(n, d);
    RoundHalfUpIsNearest(n, d);
    var x, y := d * c, d * h;
    assert 2 * d * c == 2 * x;
    assert -d < y - x < d;
    assert d * (h - c) == y - x;
    MultiplesAreFar(d, h - c);
  }

  /** Whole hours survive the round trip at any rate. */
  lemma WholeHoursAreExact(hours: int, rate: int)
    requires hours >= 0 && hours % ONE_HOUR == 0 && rate > 0
    ensures AmountFor(hours, rate) * ONE_HOUR == hours * rate
    ensures CreditHours(AmountFor(hours, rate), rate) == hours
  {
    var k := hours / ONE_HOUR;
    var x := k * rate;
    assert hours * rate == 100 * x;
    RoundsTo(hours * rate, ONE_HOUR, x);
    if k > 0 {
      assert x >= 1;
      assert rate * hours == x * ONE_HOUR;
      RoundsTo(x * ONE_HOUR, rate, hours);
    }
  }

  /** Below 1.00 an hour there are not enough cents to tell 0.01 h apart:
      amounts from 0 to 100 hundredths cannot all differ. */
  lemma {:induction false} TwoLengthsSameAmount(rate: int, n: int)
    returns (hours: int)
    requires 0 <= rate && 0 <= n && AmountFor(n, rate) < n
    ensures 0 <= hours < n && AmountFor(hours, rate) == AmountFor(hours + 1, rate)
  {
    RoundHalfUpIsNearest(0, ONE_HOUR);
    RoundHalfUpIsNearest((n - 1) * rate, ONE_HOUR);
    RoundHalfUpIsNearest(n * rate, ONE_HOUR);
    assert n * rate == (n - 1) * rate + rate;
    if AmountFor(n - 1, rate) == AmountFor(n, rate) {
      hours := n - 1;
    } else {
      hours := TwoLengthsSameAmount(rate, n - 1);
    }
  }

  /** The round trip is exact for every length if and only if the rate is at
      least 1.00 an hour. */
  lemma CreditIsExactExactlyFromOneAnHour(rate: int)
    requires rate > 0
    ensures (forall hours | hours >= 0 :: CreditHours(AmountFor(hours, rate), rate) == hours) <==> rate >= 100
  {
    if rate >= 100 {
      forall hours | hours >= 0 ensures CreditHours(AmountFor(hours, rate), rate) == hours {
        CreditIsExact(hours, rate);
      }
    } else {
      RoundHalfUpIsNearest(100 * rate, ONE_HOUR);
      var hours := TwoLengthsSameAmount(rate, 100);
      assert CreditHours(AmountFor(hours, rate), rate) == CreditHours(AmountFor(hours + 1, rate), rate);
      assert hours + 1 >= 0 && hours + 1 != hours;
    }
  }

  // ---- the credit row ---------------------------------------------------------

  predicate IsCreditable(bk: Booking, previous: Status) {
    && (previous == Confirmed || previous == Completed)
    && (bk.payment == Hourly || bk.payment == Mixed || bk.payment == Manual)
    && bk.amount > 0
  }

  /** The credit rows of a booking: the UNIQUE constraint allows one. */
  function CreditsOf(purchases: PurchaseTable, b: BookingId): set<PurchaseId> {
    set p | p in purchases && purchases[p].source == Some(b)
  }

  ghost predicate OneCreditEach(purchases: PurchaseTable) {
    forall p, q | p in purchases && q in purchases && purchases[p].source.Some?
                  && purchases[p].source == purchases[q].source :: p == q
  }

  /** The credit rows of `b` are the same rows in both tables. */
  ghost predicate SameCredits(purchases: PurchaseTable, purchases': PurchaseTable, b: BookingId) {
    && CreditsOf(purchases', b) == CreditsOf(purchases, b)
    && forall p | p in CreditsOf(purchases, b) :: purchases'[p] == purchases[p]
  }

  /** A credit as it is handed out, new or brought back. */
  function FreshCredit(bk: Booking, b: BookingId, hours: int, now: int): Purchase {
    Purchase(bk.user, bk.org, hours, 0, hours, Spendable, now + CREDIT_VALIDITY, Some(b))
  }

  /** `NoCredit`: nothing is owed or the row already stands. `TooLarge`: the
      request fails whole. */
  datatype CreditOutcome = NoCredit | CreditRow(id: PurchaseId, row: Purchase) | TooLarge

  /** What cancelling booking `b` puts in the bank; `newId` is the id a new row would get. */
  ghost function CreditFor(purchases: PurchaseTable, b: BookingId, bk: Booking, previous: Status, rate: int, now: int,
                           newId: PurchaseId): CreditOutcome {
    var hours := CreditHours(bk.amount, rate);
    if !IsCreditable(bk, previous) || hours <= 0 then NoCredit
    else if hours > MAX_LEDGER_HOURS then TooLarge
    else if CreditsOf(purchases, b) == {} then CreditRow(newId, FreshCredit(bk, b, hours, now))
    else
      var p :| p in CreditsOf(purchases, b);
      if purchases[p].status != Withdrawn || purchases[p].used > 0 then NoCredit
      else CreditRow(p, FreshCredit(bk, b, hours, now))
  }

  datatype ReversalOutcome = NothingToReverse | Reverse(id: PurchaseId) | AlreadySpent

  /** Whether a booking's credit can be taken back. */
  ghost function ReversalOf(purchases: PurchaseTable, b: BookingId): ReversalOutcome {
    if CreditsOf(purchases, b) == {} then NothingToReverse
    else
      var p :| p in CreditsOf(purchases, b);
      if purchases[p].used > 0 then AlreadySpent
      else if purchases[p].status == Withdrawn then NothingToReverse
      else if purchases[p].remaining < purchases[p].total then AlreadySpent
      else Reverse(p)
  }

  function Reversed(p: Purchase): Purchase {
    p.(status := Withdrawn, remaining := 0)
  }
}
