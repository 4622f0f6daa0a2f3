/** Decimal rounding to whole cents, the professional fee and the construction total. */
module Money {
  import opened Wrappers

  /** quantize(Decimal("1"), rounding=ROUND_HALF_UP) of an amount that is not negative */
  function HalfUp(x: real): int {
    (x + 0.5).Floor
  }

  lemma HalfUpIsNear(x: real)
    ensures -0.5 < HalfUp(x) as real - x <= 0.5
  {
  }

  lemma HalfUpMonotone(x: real, y: real)
    requires x <= y
    ensures HalfUp(x) <= HalfUp(y)
  {
  }

  lemma HalfUpAtLeast(n: int, x: real)
    requires n as real <= x
    ensures n <= HalfUp(x)
  {
  }

  // ----- 28 significant digits

  function Pow10(n: nat): (p: nat)
    ensures p >= 1 && (n >= 1 ==> p % 10 == 0)
  {
    if n == 0 then 1 else 10 * Pow10(n - 1)
  }

  /** A quotient as Decimal division leaves it: exact, or a nearest number `units` of the last of `places`
      decimal places. A quotient below 10^22 has at most 22 of its 28 digits before the point. */
  predicate Quotient(exact: real, r: real, units: int, places: nat) {
    r == exact || Nearest(exact, r, units, places)
  }

  predicate Nearest(exact: real, r: real, units: int, places: nat) {
    && places >= 6 && r * Pow10(places) as real == units as real
    && -0.5 <= (r - exact) * Pow10(places) as real <= 0.5
  }

  lemma {:induction false} Million(places: nat)
    requires places >= 6
    ensures Pow10(places) >= 1_000_000
    decreases places
  {
    if places == 6 {
      assert Pow10(3) == 1000;
      assert Pow10(6) == 1_000_000;
    } else {
      Million(places - 1);
    }
  }

  lemma LessByFactor(a: real, b: real, f: real)
    requires f > 0.0 && a * f <= b * f
    ensures a <= b
  {
    var gap := b * f - a * f;
    assert gap / f == b - a;
  }

  lemma Scaled(x: real, p: real)
    requires p >= 1_000_000.0 && -0.5 <= x * p <= 0.5
    ensures -0.0000005 <= x <= 0.0000005
  {
    assert 0.0000005 * p >= 0.5;
    LessByFactor(x, 0.0000005, p);
    LessByFactor(-0.0000005, x, p);
  }

  /** A fraction that is not halfway between two integers keeps away from halfway. */
  lemma AwayFromHalf(num: nat, den: nat, k: int)
    requires 1 <= den && k as real < num as real / den as real + 0.5
    ensures k as real + 0.5 / den as real <= num as real / den as real + 0.5
  {
    var q := num as real / den as real;
    assert q * den as real == num as real;
    assert (k as real) * (2 * den) as real < (q + 0.5) * (2 * den) as real == (2 * num + den) as real;
    assert k * (2 * den) < 2 * num + den;
    assert k * (2 * den) + 1 <= 2 * num + den;
    assert (k as real + 0.5 / den as real) * (2 * den) as real == (k * (2 * den) + 1) as real;
    LessByFactor(k as real + 0.5 / den as real, q + 0.5, (2 * den) as real);
  }

  /** A quotient that is halfway has one decimal place, and is kept exactly. */
  lemma HalvesAreExact(exact: real, r: real, units: int, places: nat, k: int)
    requires Nearest(exact, r, units, places) && exact + 0.5 == k as real
    ensures r == exact
  {
    var p := Pow10(places);
    var whole := k * p - p / 2;
    assert p == 2 * (p / 2);
    assert exact * p as real == (k * p) as real - 0.5 * p as real == whole as real;
    assert (r - exact) * p as real == r * p as real - exact * p as real;
    assert units == whole;
    LessByFactor(r, exact, p as real);
    LessByFactor(exact, r, p as real);
  }

  /** Rounding the quotient to 28 digits first never changes the cents: for every dividend and every divisor
      up to 10000. */
  lemma QuotientKeepsCents(num: nat, den: nat, r: real, units: int, places: nat)
    requires 1 <= den <= 10_000 && Quotient(num as real / den as real, r, units, places)
    ensures HalfUp(r) == HalfUp(num as real / den as real)
  {
    var q := num as real / den as real;
    var k := HalfUp(q);
    if Nearest(q, r, units, places) && q + 0.5 == k as real {
      HalvesAreExact(q, r, units, places, k);
    } else if Nearest(q, r, units, places) {
      Million(places);
      Scaled(r - q, Pow10(places) as real);
      AwayFromHalf(num, den, k);
      AwayFromWhole(num, den, k + 1);
      Reciprocal(den);
    }
  }

  lemma Reciprocal(den: nat)
    requires 1 <= den <= 10_000
    ensures 0.5 / den as real >= 0.00005
  {
    LessByFactor(0.00005, 0.5 / den as real, den as real);
  }

  lemma AwayFromWhole(num: nat, den: nat, k: int)
    requires 1 <= den && num as real / den as real + 0.5 < k as real
    ensures num as real / den as real + 0.5 + 0.5 / den as real <= k as real
  {
    var q := num as real / den as real;
    assert q * den as real == num as real;
    assert (2 * num + den) as real == (q + 0.5) * (2 * den) as real < (k as real) * (2 * den) as real;
    assert 2 * num + den < k * (2 * den);
    assert 2 * num + den + 1 <= k * (2 * den);
    assert (q + 0.5 + 0.5 / den as real) * (2 * den) as real == (2 * num + den + 1) as real;
    LessByFactor(q + 0.5 + 0.5 / den as real, k as real, (2 * den) as real);
  }

  // ----- the professional fee

  datatype FeeInput = FeeInput(hours: real, hourly: int, overhead: int, taxes: int, margin: int) {
    /** What the service accepts; rates are in hundredths of a percent. */
    predicate Accepted() {
      && hours > 0.0 && hourly > 0 && 0 <= overhead <= 100_000 && 0 <= taxes <= 100_000 && 0 <= margin < 10_000
    }
  }

  datatype Fee = Fee(labor: int, costWithOverhead: int, preTax: int, total: int)

  function Up(bps: int): real {
    (10_000 + bps) as real / 10_000.0
  }

  /** The share of the price that is not margin. */
  function CostShare(margin: int): real {
    1.0 - margin as real / 10_000.0
  }

  function Labor(hours: real, hourly: int): int {
    HalfUp(hours * hourly as real)
  }

  function WithRate(cents: int, bps: int): int {
    HalfUp(cents as real * Up(bps))
  }

  function WithMargin(cents: int, margin: int): int
    requires margin < 10_000
  {
    HalfUp(cents as real / CostShare(margin))
  }

  function FeeOf(f: FeeInput): Fee
    requires f.margin < 10_000
  {
    var labor := Labor(f.hours, f.hourly);
    var costWithOverhead := WithRate(labor, f.overhead);
    var preTax := WithMargin(costWithOverhead, f.margin);
    Fee(labor, costWithOverhead, preTax, WithRate(preTax, f.taxes))
  }

  datatype FeeError = HoursInvalid | HourlyInvalid | BpsInvalid | MarginTooHigh

  /** The checks of estimate_professional_fee, in their order, and the fee. */
  function ProfessionalFee(f: FeeInput): (r: Result<Fee, FeeError>)
    ensures r.Ok? <==> f.Accepted()
    ensures r == Err(HoursInvalid) <==> f.hours <= 0.0
    ensures r == Err(HourlyInvalid) <==> f.hours > 0.0 && f.hourly <= 0
    ensures r == Err(MarginTooHigh) <==> f.(margin := 0).Accepted() && 10_000 <= f.margin <= 100_000
  {
    if f.hours <= 0.0 then Err(HoursInvalid)
    else if f.hourly <= 0 then Err(HourlyInvalid)
    else if !(0 <= f.overhead <= 100_000 && 0 <= f.taxes <= 100_000 && 0 <= f.margin <= 100_000) then Err(BpsInvalid)
    else if f.margin >= 10_000 then Err(MarginTooHigh)
    else Ok(FeeOf(f))
  }

  lemma Times(x: real, y: real, a: real, b: real)
    requires 0.0 <= x <= y && 0.0 <= a <= b
    ensures 0.0 <= x * a <= y * b
  {
    assert x * a <= y * a;
    assert y * a <= y * b;
  }

  lemma Over(x: real, y: real, a: real, b: real)
    requires 0.0 <= x <= y && 0.0 < b <= a
    ensures 0.0 <= x / a <= y / b
  {
    assert x / a * a == x && y / b * b == y;
    LessByFactor(0.0, x / a, a);
    LessByFactor(0.0, y / b, b);
    Times(y / b, y / b, b, a);
    LessByFactor(x / a, y / b, a);
  }

  // Every stage keeps order, and no stage loses cents.

  lemma LaborMonotone(hours: real, hours': real, hourly: int, hourly': int)
    requires 0.0 <= hours <= hours' && 0 <= hourly <= hourly'
    ensures 0 <= Labor(hours, hourly) <= Labor(hours', hourly')
  {
    Times(hours, hours', hourly as real, hourly' as real);
    HalfUpAtLeast(0, hours * hourly as real);
    HalfUpMonotone(hours * hourly as real, hours' * hourly' as real);
  }

  lemma RateMonotone(cents: nat, cents': nat, bps: nat, bps': nat)
    requires cents <= cents' && bps <= bps'
    ensures cents <= WithRate(cents, bps) <= WithRate(cents', bps')
  {
    Times(cents as real, cents' as real, Up(bps), Up(bps'));
    Times(cents as real, cents as real, 1.0, Up(bps));
    HalfUpAtLeast(cents, cents as real * Up(bps));
    HalfUpMonotone(cents as real * Up(bps), cents' as real * Up(bps'));
  }

  lemma MarginMonotone(cents: nat, cents': nat, margin: nat, margin': nat)
    requires cents <= cents' && margin <= margin' < 10_000
    ensures cents <= WithMargin(cents, margin) <= WithMargin(cents', margin')
  {
    Over(cents as real, cents' as real, CostShare(margin), CostShare(margin'));
    Over(cents as real, cents as real, 1.0, CostShare(margin));
    HalfUpAtLeast(cents, cents as real / CostShare(margin));
    HalfUpMonotone(cents as real / CostShare(margin), cents' as real / CostShare(margin'));
  }

  /** labor <= cost with overhead <= price before tax <= total, and no input can be raised without keeping or
      raising each of them: for all accepted inputs. */
  lemma FeeIsMonotone(f: FeeInput, g: FeeInput)
    requires f.Accepted() && g.Accepted()
    requires f.hours <= g.hours && f.hourly <= g.hourly && f.overhead <= g.overhead && f.taxes <= g.taxes
    requires f.margin <= g.margin
    ensures 0 <= FeeOf(f).labor <= FeeOf(f).costWithOverhead <= FeeOf(f).preTax <= FeeOf(f).total
    ensures FeeOf(f).labor <= FeeOf(g).labor && FeeOf(f).costWithOverhead <= FeeOf(g).costWithOverhead
    ensures FeeOf(f).preTax <= FeeOf(g).preTax && FeeOf(f).total <= FeeOf(g).total
  {
    var a, b := FeeOf(f), FeeOf(g);
    LaborMonotone(f.hours, g.hours, f.hourly, g.hourly);
    RateMonotone(a.labor, b.labor, f.overhead, g.overhead);
    MarginMonotone(a.costWithOverhead, b.costWithOverhead, f.margin, g.margin);
    RateMonotone(a.preTax, b.preTax, f.taxes, g.taxes);
  }

  // How far each stage can take an amount from its exact value.

  predicate Within(v: real, x: real, e: real) {
    x - e <= v <= x + e
  }

  function ExactRate(x: real, bps: int): real {
    x * Up(bps)
  }

  function ExactMargin(x: real, margin: int): real
    requires margin < 10_000
  {
    x / CostShare(margin)
  }

  lemma Grow(a: real, b: real, rate: real)
    requires a <= b && rate >= 0.0
    ensures a * rate <= b * rate
  {
  }

  lemma Spread(x: real, e: real, rate: real)
    ensures (x + e) * rate == x * rate + e * rate && (x - e) * rate == x * rate - e * rate
  {
  }

  lemma Scale(v: real, exact: real, e: real, rate: real)
    requires Within(v, exact, e) && rate >= 0.0
    ensures Within(HalfUp(v * rate) as real, exact * rate, e * rate + 0.5)
  {
    HalfUpIsNear(v * rate);
    Spread(exact, e, rate);
    Grow(v, exact + e, rate);
    Grow(exact - e, v, rate);
  }

  lemma RateError(cents: int, exact: real, e: real, bps: nat)
    requires Within(cents as real, exact, e)
    ensures Within(WithRate(cents, bps) as real, ExactRate(exact, bps), ExactRate(e, bps) + 0.5)
  {
    Scale(cents as real, exact, e, Up(bps));
  }

  lemma MarginError(cents: int, exact: real, e: real, margin: int)
    requires margin < 10_000 && Within(cents as real, exact, e)
    ensures Within(WithMargin(cents, margin) as real, ExactMargin(exact, margin), ExactMargin(e, margin) + 0.5)
  {
    var share := CostShare(margin);
    DivideIsTimes(cents as real, share);
    DivideIsTimes(exact, share);
    DivideIsTimes(e, share);
    Scale(cents as real, exact, e, 1.0 / share);
  }

  lemma DivideIsTimes(x: real, y: real)
    requires y > 0.0
    ensures x / y == x * (1.0 / y) && 1.0 / y > 0.0
  {
    var inverse := 1.0 / y;
    assert inverse * y == 1.0;
    assert x * inverse * y == x;
  }

  /** An amount carried through all stages without rounding. */
  function Through(f: FeeInput, x: real): real
    requires f.margin < 10_000
  {
    ExactRate(ExactMargin(ExactRate(x, f.overhead), f.margin), f.taxes)
  }

  /** How far the four roundings can take the total from the exact fee. */
  function FeeErrorBound(f: FeeInput): real
    requires f.margin < 10_000
  {
    ExactRate(ExactMargin(ExactRate(0.5, f.overhead) + 0.5, f.margin) + 0.5, f.taxes) + 0.5
  }

  lemma TaxedIsNear(cost: int, exact: real, e: real, margin: int, taxes: nat)
    requires margin < 10_000 && Within(cost as real, exact, e)
    ensures Within(WithRate(WithMargin(cost, margin), taxes) as real, ExactRate(ExactMargin(exact, margin), taxes),
                   ExactRate(ExactMargin(e, margin) + 0.5, taxes) + 0.5)
  {
    MarginError(cost, exact, e, margin);
    RateError(WithMargin(cost, margin), ExactMargin(exact, margin), ExactMargin(e, margin) + 0.5, taxes);
  }

  /** The total stays within the bound of the fee computed without any rounding. */
  lemma FeeIsNear(f: FeeInput)
    requires f.Accepted()
    ensures Within(FeeOf(f).total as real, Through(f, f.hours * f.hourly as real), FeeErrorBound(f))
  {
    var x := f.hours * f.hourly as real;
    HalfUpIsNear(x);
    RateError(Labor(f.hours, f.hourly), x, 0.5, f.overhead);
    TaxedIsNear(FeeOf(f).costWithOverhead, ExactRate(x, f.overhead), ExactRate(0.5, f.overhead) + 0.5, f.margin, f.taxes);
  }

  lemma RateInFull(x: real, bps: int)
    ensures 10_000.0 * ExactRate(x, bps) == x * (10_000 + bps) as real
  {
  }

  lemma MarginInFull(x: real, margin: int)
    requires margin < 10_000
    ensures ExactMargin(x, margin) * (10_000 - margin) as real == 10_000.0 * x
  {
    var q := ExactMargin(x, margin);
    assert q * CostShare(margin) == x;
    assert CostShare(margin) * 10_000.0 == (10_000 - margin) as real;
  }

  /** The exact fee: with o, t and m the overhead, taxes and margin, x * (1 + o) / (1 - m) * (1 + t). */
  lemma {:induction false} FeeInFull(f: FeeInput, x: real)
    requires f.margin < 10_000
    ensures 10_000.0 * (Through(f, x) * (10_000 - f.margin) as real)
            == x * (10_000 + f.overhead) as real * (10_000 + f.taxes) as real
  {
    var loaded := ExactRate(x, f.overhead);
    var priced := ExactMargin(loaded, f.margin);
    RateInFull(x, f.overhead);
    MarginInFull(loaded, f.margin);
    RateInFull(priced, f.taxes);
    var share, taxed := (10_000 - f.margin) as real, (10_000 + f.taxes) as real;
    Rearranged(priced, Through(f, x), share, taxed, loaded, x * (10_000 + f.overhead) as real);
  }

  lemma Rearranged(priced: real, total: real, share: real, taxed: real, loaded: real, top: real)
    requires 10_000.0 * total == priced * taxed && priced * share == 10_000.0 * loaded && 10_000.0 * loaded == top
    ensures 10_000.0 * (total * share) == top * taxed
  {
    assert 10_000.0 * (total * share) == (10_000.0 * total) * share;
    assert priced * taxed * share == priced * share * taxed;
  }

  lemma MarginFraction(cents: nat, margin: nat)
    requires margin < 10_000
    ensures cents as real / CostShare(margin) == (cents * 10_000) as real / (10_000 - margin) as real
  {
    var q := cents as real / CostShare(margin);
    assert q * CostShare(margin) == cents as real;
    assert CostShare(margin) * 10_000.0 == (10_000 - margin) as real;
    assert q * (10_000 - margin) as real == (cents * 10_000) as real;
  }

  /** The price before tax is the same from the quotient that Decimal division really returns. */
  lemma DecimalMargin(cents: nat, margin: nat, r: real, units: int, places: nat)
    requires margin < 10_000 && Quotient(cents as real / CostShare(margin), r, units, places)
    ensures HalfUp(r) == WithMargin(cents, margin)
  {
    MarginFraction(cents, margin);
    QuotientKeepsCents(cents * 10_000, 10_000 - margin, r, units, places);
  }
}
