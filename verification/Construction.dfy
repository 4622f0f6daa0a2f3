/** The total of a construction estimate: every line is rounded to cents, and the sum times the factor again. */
module Construction {
  import opened Money

  /** The exact cents of a line: quantity times price. */
  type Amount = x: real | x >= 0.0

  /** A quantity in millionths at a price in cents. */
  function AmountOf(quantity: nat, cents: nat): Amount {
    (quantity * cents) as real / 1_000_000.0
  }

  function Subtotal(x: Amount): (cents: nat)
    ensures Within(cents as real, x, 0.5)
  {
    HalfUpIsNear(x);
    HalfUp(x)
  }

  /** base_total */
  function Base(amounts: seq<Amount>): nat {
    if amounts == [] then 0 else Subtotal(amounts[0]) + Base(amounts[1..])
  }

  function Sum(amounts: seq<Amount>): real {
    if amounts == [] then 0.0 else amounts[0] + Sum(amounts[1..])
  }

  function Factor(bps: nat): real {
    bps as real / 10_000.0
  }

  function WithFactor(base: nat, bps: nat): int {
    HalfUp(base as real * Factor(bps))
  }

  function Total(amounts: seq<Amount>, bps: nat): int {
    WithFactor(Base(amounts), bps)
  }

  lemma {:induction false} BaseIsNear(amounts: seq<Amount>)
    ensures Within(Base(amounts) as real, Sum(amounts), |amounts| as real * 0.5)
  {
    if amounts != [] {
      BaseIsNear(amounts[1..]);
    }
  }

  lemma WithFactorIsNear(base: nat, exact: real, n: nat, bps: nat)
    requires Within(base as real, exact, n as real * 0.5)
    ensures Within(WithFactor(base, bps) as real, exact * (bps as real / 10_000.0), (n * bps) as real / 20_000.0 + 0.5)
  {
    Scale(base as real, exact, n as real * 0.5, Factor(bps));
    assert n as real * 0.5 * Factor(bps) == (n * bps) as real / 20_000.0;
  }

  /** For n lines and every factor, the total is at most n * bps / 20000 + 1/2 cents from the exact sum. */
  lemma {:induction false} TotalIsNear(amounts: seq<Amount>, bps: nat)
    ensures Within(Total(amounts, bps) as real, Sum(amounts) * (bps as real / 10_000.0),
                   (|amounts| * bps) as real / 20_000.0 + 0.5)
  {
    BaseIsNear(amounts);
    WithFactorIsNear(Base(amounts), Sum(amounts), |amounts|, bps);
  }

  lemma {:induction false} BaseAppend(a: seq<Amount>, b: seq<Amount>)
    ensures Base(a + b) == Base(a) + Base(b)
  {
    if a == [] {
      assert a + b == b;
    } else {
      assert (a + b)[1..] == a[1..] + b;
      BaseAppend(a[1..], b);
    }
  }

  lemma {:induction false} BaseSnoc(amounts: seq<Amount>, x: Amount)
    ensures Base(amounts + [x]) == Base(amounts) + Subtotal(x)
  {
    BaseAppend(amounts, [x]);
    assert [x][1..] == [];
  }

  lemma WithFactorSplits(x: nat, y: nat, bps: nat)
    ensures -1 <= WithFactor(x + y, bps) - (WithFactor(x, bps) + WithFactor(y, bps)) <= 1
  {
    Spread(x as real, y as real, Factor(bps));
  }

  /** Estimating a list in two parts changes the sum by at most one cent. */
  lemma SplitByACent(a: seq<Amount>, b: seq<Amount>, bps: nat)
    ensures -1 <= Total(a + b, bps) - (Total(a, bps) + Total(b, bps)) <= 1
  {
    BaseAppend(a, b);
    WithFactorSplits(Base(a), Base(b), bps);
  }

  function Without<T>(s: seq<T>, i: nat): seq<T>
    requires i < |s|
  {
    s[..i] + s[i + 1..]
  }

  lemma {:induction false} BaseWithout(amounts: seq<Amount>, i: nat)
    requires i < |amounts|
    ensures Base(amounts) == Subtotal(amounts[i]) + Base(Without(amounts, i))
  {
    if i == 0 {
      assert Without(amounts, i) == amounts[1..];
    } else {
      BaseWithout(amounts[1..], i - 1);
      assert Without(amounts, i) == [amounts[0]] + Without(amounts[1..], i - 1);
    }
  }

  lemma MultisetWithout<T>(s: seq<T>, i: nat)
    requires i < |s|
    ensures multiset(Without(s, i)) == multiset(s) - multiset{s[i]}
    ensures multiset(s) == multiset(Without(s, i)) + multiset{s[i]}
  {
    assert s == s[..i] + [s[i]] + s[i + 1..];
  }

  /** The order of the lines does not matter. */
  lemma {:induction false} BaseOfPermutation(a: seq<Amount>, b: seq<Amount>)
    requires multiset(a) == multiset(b)
    ensures Base(a) == Base(b)
  {
    if a == [] {
      assert |multiset(b)| == 0;
    } else {
      assert a[0] in multiset(b);
      var i :| 0 <= i < |b| && b[i] == a[0];
      BaseWithout(b, i);
      MultisetWithout(b, i);
      MultisetWithout(a, 0);
      assert Without(a, 0) == a[1..];
      BaseOfPermutation(a[1..], Without(b, i));
    }
  }

  lemma TotalOfPermutation(a: seq<Amount>, b: seq<Amount>, bps: nat)
    requires multiset(a) == multiset(b)
    ensures Total(a, bps) == Total(b, bps)
  {
    BaseOfPermutation(a, b);
  }
}
