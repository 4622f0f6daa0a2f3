/** The lease bound that config.py checks, against the retry schedule that the client follows. */
module LeaseConfig {
  datatype Settings = Settings(timeout: real, attempts: int, backoff: real, lease: int) {
    /** The checks on these settings; `backoff` itself is not checked. */
    predicate Accepted() {
      && 0.0 < timeout <= 60.0 && 1 <= attempts <= 3
      && MinimumLease() <= lease <= 600
    }

    /** int(timeout * attempts + backoff * max(0, attempts - 1) + 10), for a sum that is not negative */
    function MinimumLease(): int {
      (timeout * attempts as real + backoff * (if attempts >= 1 then attempts - 1 else 0) as real + 10.0).Floor
    }
  }

  function Pow2(n: nat): nat {
    if n == 0 then 1 else 2 * Pow2(n - 1)
  }

  /** The longest time that `i` attempts, each followed by its backoff, take. */
  function TimeBefore(timeout: real, backoff: real, i: nat): real {
    if i == 0 then 0.0 else TimeBefore(timeout, backoff, i - 1) + timeout + backoff * Pow2(i - 1) as real
  }

  /** The longest time one call takes: no backoff follows the last attempt. */
  function Schedule(timeout: real, backoff: real, n: nat): real {
    if n == 0 then 0.0 else TimeBefore(timeout, backoff, n - 1) + timeout
  }

  lemma Distribute(x: real, a: real, b: real)
    ensures x * (a + b) == x * a + x * b
  {
  }

  lemma {:induction false} TimeBeforeClosed(timeout: real, backoff: real, i: nat)
    ensures TimeBefore(timeout, backoff, i) == timeout * i as real + backoff * (Pow2(i) - 1) as real
  {
    if i > 0 {
      TimeBeforeClosed(timeout, backoff, i - 1);
      Distribute(timeout, (i - 1) as real, 1.0);
      Distribute(backoff, (Pow2(i - 1) - 1) as real, Pow2(i - 1) as real);
      assert i as real == (i - 1) as real + 1.0;
      assert (Pow2(i) - 1) as real == (Pow2(i - 1) - 1) as real + Pow2(i - 1) as real;
    }
  }

  /** The schedule is timeout * n + backoff * (2^(n-1) - 1). */
  lemma {:induction false} ScheduleClosed(timeout: real, backoff: real, n: nat)
    requires n >= 1
    ensures Schedule(timeout, backoff, n) == timeout * n as real + backoff * (Pow2(n - 1) - 1) as real
  {
    TimeBeforeClosed(timeout, backoff, n - 1);
    Distribute(timeout, (n - 1) as real, 1.0);
    assert n as real == (n - 1) as real + 1.0;
  }

  lemma Product(x: real, n: nat)
    requires x >= 0.0
    ensures x * n as real >= 0.0
    decreases n
  {
    if n > 0 {
      Product(x, n - 1);
      Distribute(x, (n - 1) as real, 1.0);
      assert n as real == (n - 1) as real + 1.0;
    }
  }

  lemma {:induction false} TimeNonNegative(timeout: real, backoff: real, i: nat)
    requires timeout >= 0.0 && backoff >= 0.0
    ensures TimeBefore(timeout, backoff, i) >= 0.0
  {
    if i > 0 {
      TimeNonNegative(timeout, backoff, i - 1);
      Product(backoff, Pow2(i - 1));
    }
  }

  lemma {:induction false} TimeGrows(timeout: real, backoff: real, i: nat, n: nat)
    requires i < n && timeout >= 0.0 && backoff >= 0.0
    ensures 0.0 <= TimeBefore(timeout, backoff, i) + timeout <= Schedule(timeout, backoff, n)
    decreases n
  {
    TimeNonNegative(timeout, backoff, i);
    if i < n - 1 {
      TimeGrows(timeout, backoff, i, n - 1);
      Product(backoff, Pow2(n - 2));
    }
  }

  function Fraction(x: real): real {
    x - x.Floor as real
  }

  /** The guard under which the schedule of three attempts fits its lease. */
  predicate BackoffFits(s: Settings) {
    s.attempts <= 2 || s.backoff + Fraction(3.0 * s.timeout + 2.0 * s.backoff) < 10.0
  }

  /** By how much the shortest accepted lease outlasts the schedule. */
  function Slack(s: Settings): real {
    10.0 - Fraction(s.timeout * s.attempts as real + s.backoff * (s.attempts - 1) as real)
    - if s.attempts == 3 then s.backoff else 0.0
  }

  lemma SlackIsLeast(s: Settings)
    requires 1 <= s.attempts <= 3
    ensures s.MinimumLease() as real == Schedule(s.timeout, s.backoff, s.attempts) + Slack(s)
    ensures Slack(s) > 0.0 <==> BackoffFits(s)
  {
    ScheduleClosed(s.timeout, s.backoff, s.attempts);
    assert Pow2(0) == 1 && Pow2(1) == 2 && Pow2(2) == 4;
    var x := s.timeout * s.attempts as real + s.backoff * (s.attempts - 1) as real;
    assert s.MinimumLease() == (x + 10.0).Floor == x.Floor + 10;
    assert Slack(s) == 10.0 - (x - x.Floor as real) - if s.attempts == 3 then s.backoff else 0.0;
    match s.attempts
    case 1 =>
      assert x == s.timeout;
    case 2 =>
      assert x == 2.0 * s.timeout + s.backoff;
    case _ =>
      assert x == 3.0 * s.timeout + 2.0 * s.backoff;
  }

  /** Every lease that the configuration accepts for these settings outlasts the schedule. */
  ghost predicate EveryLeaseCovers(s: Settings) {
    forall lease: int :: s.(lease := lease).Accepted()
      ==> Schedule(s.timeout, s.backoff, s.attempts) < s.(lease := lease).lease as real
  }

  /** All accepted leases outlast the schedule exactly when there are at most two attempts, or the backoff is
      small enough, or no lease is accepted at all. */
  lemma LeaseCoversSchedule(s: Settings)
    requires 0.0 < s.timeout <= 60.0 && 1 <= s.attempts <= 3 && s.backoff >= 0.0
    ensures EveryLeaseCovers(s) <==> BackoffFits(s) || s.MinimumLease() > 600
  {
    SlackIsLeast(s);
    forall lease: int
      ensures s.(lease := lease).MinimumLease() == s.MinimumLease()
    {
    }
    if EveryLeaseCovers(s) && s.MinimumLease() <= 600 {
      var shortest := s.(lease := s.MinimumLease());
      assert shortest.Accepted();
    }
  }

  /** A backoff of at most nine seconds always fits. */
  lemma NineSecondsFit(s: Settings)
    requires s.backoff <= 9.0
    ensures BackoffFits(s)
  {
  }

  /** One second of timeout, three attempts and 20 seconds of backoff are accepted with a lease of 53 seconds,
      ten less than the schedule. */
  lemma BackoffCanOutlastLease()
    ensures var s := Settings(1.0, 3, 20.0, 53); s.Accepted() && Schedule(s.timeout, s.backoff, s.attempts) == 63.0
  {
    ScheduleClosed(1.0, 20.0, 3);
    assert Pow2(0) == 1 && Pow2(1) == 2 && Pow2(2) == 4;
  }
}
