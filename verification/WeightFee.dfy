/** `WeightToFee`: a fee polynomial with an integer part and a parts-per-billion part. */
module WeightFee {
  import opened Prelude

  const BILLION: nat := 1_000_000_000
  const HALF: nat := 500_000_000

  const UNITS: nat := 1_000_000_000_000
  const CENTS: nat := UNITS / 30_000

  datatype Coefficient = Coefficient(degree: nat, negative: bool, parts: nat, integer: nat)

  function Quotient(n: nat, q: nat): (r: nat)
    requires q > 0
  {
    n / q
  }

  /** The smallest factor that brings a denominator down to a billion. */
  function Factor(q: nat): (f: nat)
    requires q > 0
    ensures 1 <= f <= q && (f - 1) * BILLION < q <= f * BILLION
  {
    (q + BILLION - 1) / BILLION
  }

  /** Parts per billion of a proper fraction: both numbers are reduced first, and every division rounds down. */
  function FromRational(p: nat, q: nat): nat
    requires q > 0
  {
    var f := Factor(q);
    QuotientPositive(q, f);
    Quotient(Quotient(p, f) * BILLION, Quotient(q, f))
  }

  lemma QuotientPositive(n: nat, q: nat)
    requires 0 < q <= n
    ensures Quotient(n, q) > 0
  {
  }

  function Denominator(baseWeight: nat): nat {
    100 * baseWeight
  }

  function Polynomial(baseWeight: nat): seq<Coefficient>
    requires baseWeight > 0
  {
    var p := CENTS;
    var q := Denominator(baseWeight);
    [Coefficient(1, false, FromRational(p % q, q), Quotient(p, q))]
  }

  function Capped(n: int): nat {
    if n < 0 then 0 else if n > U128_MAX then U128_MAX else n
  }

  function CappedPow(x: nat, d: nat): nat {
    if d == 0 then 1 else Capped(x * CappedPow(x, d - 1))
  }

  /** Division by a billion to the nearest integer, exact halves down. */
  function Nearest(n: nat): nat {
    n / BILLION + if n % BILLION > HALF then 1 else 0
  }

  function Evaluate(acc: nat, coefficients: seq<Coefficient>, weight: nat): nat
    decreases |coefficients|
  {
    if coefficients == [] then acc
    else
      var c := coefficients[0];
      var w := CappedPow(weight, c.degree);
      var frac := Nearest(c.parts * w);
      var integer := Capped(c.integer * w);
      var next := if c.negative then Capped(Capped(acc - frac) - integer)
                  else Capped(Capped(acc + frac) + integer);
      Evaluate(next, coefficients[1..], weight)
  }

  function Fee(baseWeight: nat, weight: nat): nat
    requires baseWeight > 0
  {
    Evaluate(0, Polynomial(baseWeight), weight)
  }

  // ---------------------------------------------------------------------------
  // The coefficients
  // ---------------------------------------------------------------------------

  lemma DivMod(n: nat, q: nat)
    requires q > 0
    ensures n == Quotient(n, q) * q + n % q && 0 <= n % q < q
  {
  }

  lemma MulMonotone(a: nat, b: nat, c: nat)
    requires a <= b
    ensures a * c <= b * c
  {
  }

  lemma SmallQuotient(i: nat, q: nat)
    requires i * q <= 33_333_333 && q >= 100
    ensures i <= 333_333
  {
    if i > 333_333 {
      MulMonotone(333_334, i, q);
    }
  }

  lemma SmallParts(parts: nat, p: nat, s: nat, q: nat)
    requires parts * q + s == p * BILLION && p <= q && q > 0
    ensures parts <= BILLION
  {
    MulMonotone(p, q, BILLION);
    if parts > BILLION {
      MulMonotone(BILLION + 1, parts, q);
    }
  }

  lemma QuotientMonotone(m: nat, n: nat, q: nat)
    requires m <= n && q > 0
    ensures Quotient(m, q) <= Quotient(n, q)
  {
    if Quotient(m, q) > Quotient(n, q) {
      MulMonotone(Quotient(n, q) + 1, Quotient(m, q), q);
      DivMod(m, q);
      DivMod(n, q);
    }
  }

  /** What the two reductions and the final division lose or gain together. */
  lemma ReductionError(f: nat, p: nat, a: nat, q: nat, b: nat, parts: nat, s: nat)
    requires a < f && b < f && s < q && parts * q + s == p * BILLION && parts <= BILLION
    ensures var error := (p * f + a) * BILLION - parts * (q * f + b);
            error == a * BILLION + s * f - parts * b
            && -((f - 1) * BILLION) <= error <= (f - 1) * BILLION + q * f
  {
    calc {
      parts * (q * f + b);
      (parts * q) * f + parts * b;
      (p * BILLION - s) * f + parts * b;
      (p * f) * BILLION - s * f + parts * b;
    }
    MulMonotone(a, f - 1, BILLION);
    MulMonotone(s, q, f);
    MulMonotone(parts, BILLION, b);
    MulMonotone(b, f - 1, BILLION);
  }

  /** Parts per billion are exact up to one rounding down, or one up and two down when a reduction is needed. */
  lemma RationalError(p: nat, q: nat) returns (error: int)
    requires p < q
    ensures FromRational(p, q) * q + error == p * BILLION && FromRational(p, q) <= BILLION
    ensures -(q as int) <= error <= 2 * q && (q <= BILLION ==> 0 <= error < q)
  {
    var f := Factor(q);
    QuotientPositive(q, f);
    var p', q' := Quotient(p, f), Quotient(q, f);
    DivMod(p, f);
    DivMod(q, f);
    QuotientMonotone(p, q, f);
    var parts := FromRational(p, q);
    DivMod(p' * BILLION, q');
    SmallParts(parts, p', (p' * BILLION) % q', q');
    ReductionError(f, p', p % f, q', q % f, parts, (p' * BILLION) % q');
    error := p * BILLION - parts * q;
    if q <= BILLION {
      assert f == 1;
      assert p' == p && q' == q;
    }
  }

  /** Integer part, remainder, parts per billion and the error of these. */
  lemma Coefficients(baseWeight: nat) returns (i: nat, r: nat, parts: nat, error: int)
    requires baseWeight > 0
    ensures Polynomial(baseWeight) == [Coefficient(1, false, parts, i)]
    ensures i * Denominator(baseWeight) + r == CENTS && r < Denominator(baseWeight)
    ensures parts * Denominator(baseWeight) + error == r * BILLION
    ensures var q := Denominator(baseWeight); -(q as int) <= error <= 2 * q && (q <= BILLION ==> 0 <= error < q)
    ensures i <= 333_333 && parts <= BILLION
  {
    var q := Denominator(baseWeight);
    i, r := Quotient(CENTS, q), CENTS % q;
    DivMod(CENTS, q);
    parts := FromRational(r, q);
    error := RationalError(r, q);
    SmallQuotient(i, q);
  }

  lemma Rate(baseWeight: nat) returns (i: nat, parts: nat)
    requires baseWeight > 0
    ensures Polynomial(baseWeight) == [Coefficient(1, false, parts, i)]
    ensures i <= 333_333 && parts <= BILLION
  {
    var r, error;
    i, r, parts, error := Coefficients(baseWeight);
  }

  // ---------------------------------------------------------------------------
  // Rounding
  // ---------------------------------------------------------------------------

  /** An exact half is rounded down. */
  lemma NearestError(n: nat)
    ensures -(HALF as int) <= BILLION * Nearest(n) - n < HALF
  {
  }

  lemma NearestMonotone(m: nat, n: nat)
    requires m <= n
    ensures Nearest(m) <= Nearest(n)
  {
    assert Nearest(m) == (m + 499_999_999) / BILLION;
    assert Nearest(n) == (n + 499_999_999) / BILLION;
  }

  lemma CappedSum(a: nat, b: nat)
    requires a <= U64_MAX + 1 && b <= 333_333 * U64_MAX
    ensures Capped(Capped(0 + a) + Capped(b)) == b + a < U128_MAX
  {
  }

  lemma TermIsBounded(i: nat, parts: nat, weight: nat)
    requires i <= 333_333 && parts <= BILLION && weight <= U64_MAX
    ensures Capped(Capped(0 + Nearest(parts * weight)) + Capped(i * weight)) == i * weight + Nearest(parts * weight) < U128_MAX
  {
    IntegerIsBounded(i, weight);
    MulMonotone(parts, BILLION, weight);
    NearestIsBounded(parts * weight, weight);
    CappedSum(Nearest(parts * weight), i * weight);
  }

  lemma IntegerIsBounded(i: nat, weight: nat)
    requires i <= 333_333 && weight <= U64_MAX
    ensures i * weight <= 333_333 * U64_MAX
  {
    MulMonotone(i, 333_333, weight);
  }

  lemma NearestIsBounded(n: nat, bound: nat)
    requires n <= BILLION * bound
    ensures Nearest(n) <= bound + 1
  {
  }

  function Pow(x: nat, d: nat): nat {
    if d == 0 then 1 else x * Pow(x, d - 1)
  }

  lemma CappedTimes(x: nat, y: nat)
    ensures Capped(x * Capped(y)) == Capped(x * y)
  {
    if y > U128_MAX && x > 0 {
      MulMonotone(1, x, y);
      MulMonotone(1, x, U128_MAX);
    }
  }

  /** A saturating power is the exact one cut off once. */
  lemma {:induction false} PowIsCappedOnce(x: nat, d: nat)
    ensures CappedPow(x, d) == Min(Pow(x, d), U128_MAX)
  {
    if d > 0 {
      PowIsCappedOnce(x, d - 1);
      CappedTimes(x, Pow(x, d - 1));
    }
  }

  /** One term of any polynomial: added and cut off above, or subtracted and cut off at zero. */
  lemma OneTerm(acc: nat, c: Coefficient, weight: nat)
    requires acc <= U128_MAX
    ensures var w := Min(Pow(weight, c.degree), U128_MAX);
            var term := Nearest(c.parts * w) + Min(c.integer * w, U128_MAX);
            Evaluate(acc, [c], weight) == if c.negative then (if acc <= term then 0 else acc - term) else Min(acc + term, U128_MAX)
  {
    PowIsCappedOnce(weight, c.degree);
    assert [c][1..] == [];
    var w := Min(Pow(weight, c.degree), U128_MAX);
    var frac, integer := Nearest(c.parts * w), Capped(c.integer * w);
    var next := if c.negative then Capped(Capped(acc - frac) - integer) else Capped(Capped(acc + frac) + integer);
    assert Evaluate(acc, [c], weight) == Evaluate(next, [], weight);
  }

  lemma EvaluateOne(c: Coefficient, weight: nat)
    requires c.degree == 1 && !c.negative && weight <= U128_MAX
    ensures Evaluate(0, [c], weight) == Capped(Capped(0 + Nearest(c.parts * weight)) + Capped(c.integer * weight))
  {
    assert [c][1..] == [];
    assert CappedPow(weight, 1) == Capped(weight * CappedPow(weight, 0)) == weight;
    var value := Capped(Capped(0 + Nearest(c.parts * weight)) + Capped(c.integer * weight));
    assert Evaluate(0, [c], weight) == Evaluate(value, [], weight);
  }

  lemma SingleTerm(i: nat, parts: nat, weight: nat)
    requires i <= 333_333 && parts <= BILLION && weight <= U64_MAX
    ensures Evaluate(0, [Coefficient(1, false, parts, i)], weight) == i * weight + Nearest(parts * weight)
    ensures i * weight + Nearest(parts * weight) < U128_MAX
  {
    TermIsBounded(i, parts, weight);
    EvaluateOne(Coefficient(1, false, parts, i), weight);
  }

  /** No 64-bit weight makes any capped operation bite: the fee is one product and one rounded product. */
  lemma FeeNeverSaturates(baseWeight: nat, weight: nat)
    requires baseWeight > 0 && weight <= U64_MAX
    ensures var c := Polynomial(baseWeight)[0];
            Fee(baseWeight, weight) == c.integer * weight + Nearest(c.parts * weight) < U128_MAX
  {
    var i, r, parts, error := Coefficients(baseWeight);
    SingleTerm(i, parts, weight);
  }

  // ---------------------------------------------------------------------------
  // Distance from the exact rational
  // ---------------------------------------------------------------------------

  /** `error` is what the parts-per-billion lose, `delta` what the final rounding adds. */
  lemma ScaledFee(q: nat, i: nat, r: nat, parts: nat, error: int, w: nat, n: nat, delta: int)
    requires parts * q + error == r * BILLION
    requires BILLION * n == parts * w + delta
    ensures q * (BILLION * (i * w + n)) == BILLION * ((i * q + r) * w) - error * w + q * delta
  {
    calc {
      q * (BILLION * (i * w + n));
      BILLION * ((i * q) * w) + q * (BILLION * n);
      BILLION * ((i * q) * w) + (parts * q) * w + q * delta;
      { assert (parts * q) * w == (r * BILLION - error) * w; }
      BILLION * ((i * q) * w) + (r * BILLION - error) * w + q * delta;
      BILLION * ((i * q + r) * w) - error * w + q * delta;
    }
  }

  lemma Scaled(q: nat, delta: int)
    requires -(HALF as int) <= delta <= HALF
    ensures -(q * HALF) <= q * delta <= q * HALF
  {
  }

  lemma ErrorTimes(error: int, low: nat, high: nat, w: nat)
    requires -(low as int) <= error <= high
    ensures -(low * w) <= error * w <= high * w
  {
    MulMonotone(low + error, low + high, w);
    assert 0 <= (low + error) * w;
  }

  /** The fee for any conversion error between `-low` and `high`. */
  lemma TermIsNearExact(q: nat, i: nat, r: nat, parts: nat, error: int, w: nat, low: nat, high: nat)
    requires i * q + r == CENTS && parts * q + error == r * BILLION && -(low as int) <= error <= high
    ensures var x := q * (BILLION * (i * w + Nearest(parts * w)));
            x <= BILLION * (CENTS * w) + low * w + q * HALF && BILLION * (CENTS * w) <= x + high * w + q * HALF
  {
    var n := Nearest(parts * w);
    var delta := BILLION * n - parts * w;
    NearestError(parts * w);
    ScaledFee(q, i, r, parts, error, w, n, delta);
    Scaled(q, delta);
    ErrorTimes(error, low, high, w);
  }

  /** Both multiplied by 10^9 * 100 * baseWeight. */
  function ScaledFeeOf(baseWeight: nat, weight: nat): nat
    requires baseWeight > 0
  {
    Denominator(baseWeight) * (BILLION * Fee(baseWeight, weight))
  }

  function ScaledExact(weight: nat): nat {
    BILLION * (CENTS * weight)
  }

  /** What the parts per billion miss, multiplied by the denominator. */
  function ErrorOf(baseWeight: nat): int
    requires baseWeight > 0
  {
    var q := Denominator(baseWeight);
    (CENTS % q) * BILLION - FromRational(CENTS % q, q) * q
  }

  /** The parts per billion are not above the exact quotient. */
  predicate NeverOvershoots(baseWeight: nat)
    requires baseWeight > 0
  {
    ErrorOf(baseWeight) >= 0
  }

  /** The parts per billion are at most one below the exact quotient. */
  predicate LosesAtMostOnePart(baseWeight: nat)
    requires baseWeight > 0
  {
    ErrorOf(baseWeight) <= Denominator(baseWeight)
  }

  lemma CoefficientsAndError(baseWeight: nat) returns (i: nat, r: nat, parts: nat)
    requires baseWeight > 0
    ensures Polynomial(baseWeight) == [Coefficient(1, false, parts, i)] && i <= 333_333 && parts <= BILLION
    ensures i * Denominator(baseWeight) + r == CENTS
    ensures parts * Denominator(baseWeight) + ErrorOf(baseWeight) == r * BILLION
    ensures var q := Denominator(baseWeight);
            -(q as int) <= ErrorOf(baseWeight) <= 2 * q && (q <= BILLION ==> 0 <= ErrorOf(baseWeight) < q)
  {
    var error;
    i, r, parts, error := Coefficients(baseWeight);
    RemainderIs(CENTS, Denominator(baseWeight), i, r);
  }

  /**
   The fee against the exact rational CENTS * weight / (100 * baseWeight): at most
   weight / 10^9 and half a unit above it, and at most 2 * weight / 10^9 and half a unit
   below it.  If the parts per billion never overshoot it is at most half a unit above; if
   they lose at most one part, at most weight / 10^9 and half a unit below.  Both is so
   whenever no reduction is needed.
   */
  lemma FeeIsNearExact(baseWeight: nat, weight: nat)
    requires baseWeight > 0 && weight <= U64_MAX
    ensures var q, x, y := 100 * baseWeight, ScaledFeeOf(baseWeight, weight), ScaledExact(weight);
            && x <= y + q * weight + q * HALF
            && y <= x + (2 * q) * weight + q * HALF
            && (NeverOvershoots(baseWeight) ==> x <= y + q * HALF)
            && (LosesAtMostOnePart(baseWeight) ==> y <= x + q * weight + q * HALF)
            && (q <= BILLION ==> NeverOvershoots(baseWeight) && LosesAtMostOnePart(baseWeight))
  {
    var i, r, parts := CoefficientsAndError(baseWeight);
    var q, error := Denominator(baseWeight), ErrorOf(baseWeight);
    SingleTerm(i, parts, weight);
    TermIsNearExact(q, i, r, parts, error, weight, q, 2 * q);
    if error >= 0 {
      TermIsNearExact(q, i, r, parts, error, weight, 0, 2 * q);
    }
    if error <= q {
      TermIsNearExact(q, i, r, parts, error, weight, q, q);
    }
  }

  // ---------------------------------------------------------------------------
  // When the sharper bounds hold
  // ---------------------------------------------------------------------------

  lemma QuotientIs(n: nat, q: nat, k: nat, r: nat)
    requires n == k * q + r && r < q
    ensures Quotient(n, q) == k
  {
    DivMod(n, q);
    if Quotient(n, q) > k {
      MulMonotone(k + 1, Quotient(n, q), q);
    } else if Quotient(n, q) < k {
      MulMonotone(Quotient(n, q) + 1, k, q);
    }
  }

  lemma RemainderIs(n: nat, q: nat, k: nat, r: nat)
    requires q > 0 && n == k * q + r && r < q
    ensures n % q == r
  {
    QuotientIs(n, q, k, r);
    DivMod(n, q);
  }

  lemma ReducedCoefficient()
    ensures Polynomial(113_638_000) == [Coefficient(1, false, 2_933_290, 0)]
  {
    assert Denominator(113_638_000) == 11_363_800_000 && Factor(11_363_800_000) == 12;
    QuotientIs(33_333_333, 11_363_800_000, 0, 33_333_333);
    QuotientIs(33_333_333, 12, 2_777_777, 9);
    QuotientIs(11_363_800_000, 12, 946_983_333, 4);
    QuotientIs(2_777_777_000_000_000, 946_983_333, 2_933_290, 259_144_430);
  }

  /** The fee with no operation capped, as it is for every 64-bit weight. */
  function Uncapped(baseWeight: nat, weight: nat): nat
    requires baseWeight > 0
  {
    var c := Polynomial(baseWeight)[0];
    c.integer * weight + Nearest(c.parts * weight)
  }

  /** A fee at most half a unit above the exact rational. */
  predicate SharplyAbove(baseWeight: nat, weight: nat, fee: nat) {
    var q := Denominator(baseWeight);
    q * (BILLION * fee) <= ScaledExact(weight) + q * HALF
  }

  /** A fee at most weight / 10^9 and half a unit below the exact rational. */
  predicate SharplyBelow(baseWeight: nat, weight: nat, fee: nat) {
    var q := Denominator(baseWeight);
    ScaledExact(weight) <= q * (BILLION * fee) + q * weight + q * HALF
  }

  lemma TimesAtMost(q: nat, delta: int, bound: int)
    requires delta <= bound
    ensures q * delta <= q * bound
  {
  }

  lemma Outweighs(error: int, q: nat, w: nat, delta: int)
    requires w > q * BILLION && -(HALF as int) <= delta <= HALF
    ensures error > q ==> error * w - q * delta > q * w + q * HALF
    ensures error < 0 ==> q * delta - error * w > q * HALF
  {
    assert q * BILLION == q * HALF + q * HALF;
    if error > q {
      MulMonotone(q + 1, error, w);
      assert (q + 1) * w == q * w + w;
      TimesAtMost(q, delta, HALF);
    } else if error < 0 {
      MulMonotone(1, -error, w);
      assert (-error) * w == -(error * w);
      TimesAtMost(q, -delta, HALF);
      assert q * (-delta) == -(q * delta);
    }
  }

  /** A large enough weight shows an error on either side. */
  lemma LargeWeightShows(q: nat, i: nat, r: nat, parts: nat, error: int, w: nat)
    requires i * q + r == CENTS && parts * q + error == r * BILLION && w > q * BILLION
    ensures var x := q * (BILLION * (i * w + Nearest(parts * w)));
            && (error > q ==> BILLION * (CENTS * w) > x + q * w + q * HALF)
            && (error < 0 ==> x > BILLION * (CENTS * w) + q * HALF)
  {
    var n := Nearest(parts * w);
    var delta := BILLION * n - parts * w;
    NearestError(parts * w);
    ScaledFee(q, i, r, parts, error, w, n, delta);
    Outweighs(error, q, w, delta);
  }

  lemma SharpEnough(baseWeight: nat, weight: nat)
    requires baseWeight > 0
    ensures NeverOvershoots(baseWeight) ==> SharplyAbove(baseWeight, weight, Uncapped(baseWeight, weight))
    ensures LosesAtMostOnePart(baseWeight) ==> SharplyBelow(baseWeight, weight, Uncapped(baseWeight, weight))
  {
    var i, r, parts := CoefficientsAndError(baseWeight);
    var q, error := Denominator(baseWeight), ErrorOf(baseWeight);
    if error >= 0 {
      TermIsNearExact(q, i, r, parts, error, weight, 0, 2 * q);
    }
    if error <= q {
      TermIsNearExact(q, i, r, parts, error, weight, q, q);
    }
  }

  lemma NotSharp(baseWeight: nat, weight: nat)
    requires baseWeight > 0 && weight > Denominator(baseWeight) * BILLION
    ensures SharplyAbove(baseWeight, weight, Uncapped(baseWeight, weight)) ==> NeverOvershoots(baseWeight)
    ensures SharplyBelow(baseWeight, weight, Uncapped(baseWeight, weight)) ==> LosesAtMostOnePart(baseWeight)
  {
    var i, r, parts := CoefficientsAndError(baseWeight);
    LargeWeightShows(Denominator(baseWeight), i, r, parts, ErrorOf(baseWeight), weight);
  }

  /** For the fee formula at every base weight the conditions are exact. */
  lemma SharpBoundsIff(baseWeight: nat)
    requires baseWeight > 0
    ensures (forall w: nat :: SharplyAbove(baseWeight, w, Uncapped(baseWeight, w))) <==> NeverOvershoots(baseWeight)
    ensures (forall w: nat :: SharplyBelow(baseWeight, w, Uncapped(baseWeight, w))) <==> LosesAtMostOnePart(baseWeight)
  {
    forall w: nat
      ensures NeverOvershoots(baseWeight) ==> SharplyAbove(baseWeight, w, Uncapped(baseWeight, w))
      ensures LosesAtMostOnePart(baseWeight) ==> SharplyBelow(baseWeight, w, Uncapped(baseWeight, w))
    {
      SharpEnough(baseWeight, w);
    }
    NotSharp(baseWeight, Denominator(baseWeight) * BILLION + 1);
  }

  /** The largest base weight for which 64-bit weights reach 10^11 times as far. */
  const LARGEST_BASE: nat := 184_467_440

  /** And for all 64-bit weights, at base weights up to the one where these are large enough to show every error. */
  lemma FeeIsSharpIff(baseWeight: nat)
    requires 0 < baseWeight <= LARGEST_BASE
    ensures (forall w: nat | w <= U64_MAX :: SharplyAbove(baseWeight, w, Fee(baseWeight, w))) <==> NeverOvershoots(baseWeight)
    ensures (forall w: nat | w <= U64_MAX :: SharplyBelow(baseWeight, w, Fee(baseWeight, w))) <==> LosesAtMostOnePart(baseWeight)
  {
    forall w: nat | w <= U64_MAX ensures Fee(baseWeight, w) == Uncapped(baseWeight, w) {
      FeeNeverSaturates(baseWeight, w);
    }
    forall w: nat | w <= U64_MAX
      ensures NeverOvershoots(baseWeight) ==> SharplyAbove(baseWeight, w, Fee(baseWeight, w))
      ensures LosesAtMostOnePart(baseWeight) ==> SharplyBelow(baseWeight, w, Fee(baseWeight, w))
    {
      SharpEnough(baseWeight, w);
    }
    NotSharp(baseWeight, U64_MAX);
  }

  /**
   An instance: at this base weight the reduction costs one part more than the division
   does, and one weight is below even by the wider margin of weight / 10^9 and a whole unit.
   */
  lemma ReductionShows()
    ensures var base, w := 113_638_000, 20_000_000_000;
            && Polynomial(base) == [Coefficient(1, false, 2_933_290, 0)]
            && CENTS * BILLION / Denominator(base) == 2_933_291
            && !LosesAtMostOnePart(base) && !SharplyBelow(base, w, Fee(base, w))
            && ScaledExact(w) > ScaledFeeOf(base, w) + Denominator(base) * w + Denominator(base) * BILLION
  {
    ReducedCoefficient();
    SingleTerm(0, 2_933_290, 20_000_000_000);
    assert Fee(113_638_000, 20_000_000_000) == 58_665_800;
    RemainderIs(CENTS, 11_363_800_000, 0, 33_333_333);
  }

  /** And one on the other side, for a weight of one second: no part is lost, and the fee is too high by more than half a unit. */
  lemma OvershootShows()
    ensures var base, w := 107_923_517, 1_000_000_000_000;
            && Polynomial(base) == [Coefficient(1, false, 3_088_607, 0)]
            && !NeverOvershoots(base) && LosesAtMostOnePart(base) && !SharplyAbove(base, w, Fee(base, w))
  {
    assert Denominator(107_923_517) == 10_792_351_700 && Factor(10_792_351_700) == 11;
    QuotientIs(33_333_333, 10_792_351_700, 0, 33_333_333);
    QuotientIs(33_333_333, 11, 3_030_303, 0);
    QuotientIs(10_792_351_700, 11, 981_122_881, 9);
    QuotientIs(3_030_303_000_000_000, 981_122_881, 3_088_607, 1_883_233);
    RemainderIs(CENTS, 10_792_351_700, 0, 33_333_333);
    SingleTerm(0, 3_088_607, 1_000_000_000_000);
    assert Fee(107_923_517, 1_000_000_000_000) == 3_088_607_000;
  }

  lemma FeeIsMonotone(baseWeight: nat, w1: nat, w2: nat)
    requires baseWeight > 0 && w1 <= w2 <= U64_MAX
    ensures Fee(baseWeight, w1) <= Fee(baseWeight, w2)
  {
    var i, parts := Rate(baseWeight);
    SingleTerm(i, parts, w1);
    SingleTerm(i, parts, w2);
    TermIsMonotone(i, parts, w1, w2);
  }

  lemma TermIsMonotone(i: nat, parts: nat, w1: nat, w2: nat)
    requires w1 <= w2
    ensures i * w1 + Nearest(parts * w1) <= i * w2 + Nearest(parts * w2)
  {
    MulMonotone(w1, w2, i);
    MulMonotone(w1, w2, parts);
    NearestMonotone(parts * w1, parts * w2);
  }

  // ---------------------------------------------------------------------------
  // Splitting a weight
  // ---------------------------------------------------------------------------

  function Fees(baseWeight: nat, weights: seq<nat>): nat
    requires baseWeight > 0
  {
    if weights == [] then 0 else Fee(baseWeight, weights[0]) + Fees(baseWeight, weights[1..])
  }

  /** The fee before rounding, in billionths. */
  function Linear(i: nat, parts: nat, weight: nat): nat {
    BILLION * (i * weight) + parts * weight
  }

  lemma TermIsLinear(i: nat, parts: nat, w: nat)
    ensures -(HALF as int) <= BILLION * (i * w + Nearest(parts * w)) - Linear(i, parts, w) <= HALF
  {
    NearestError(parts * w);
  }

  lemma LinearAdds(i: nat, parts: nat, v: nat, w: nat)
    ensures Linear(i, parts, v + w) == Linear(i, parts, v) + Linear(i, parts, w)
  {
  }

  lemma {:induction false} FeesAreLinear(baseWeight: nat, weights: seq<nat>, i: nat, parts: nat)
    requires baseWeight > 0 && TotalOf(weights) <= U64_MAX
    requires Polynomial(baseWeight) == [Coefficient(1, false, parts, i)] && i <= 333_333 && parts <= BILLION
    ensures -(HALF * |weights|) <= BILLION * Fees(baseWeight, weights) - Linear(i, parts, TotalOf(weights)) <= HALF * |weights|
    decreases |weights|
  {
    if weights != [] {
      var w, rest := weights[0], TotalOf(weights[1..]);
      FeesAreLinear(baseWeight, weights[1..], i, parts);
      SingleTerm(i, parts, w);
      TermIsLinear(i, parts, w);
      LinearAdds(i, parts, w, rest);
    }
  }

  /**
   Splitting a weight into any number of parts changes the total fee by at most half a
   unit for each part and half a unit for the whole; for two parts, by at most one unit.
   */
  lemma SplittingAWeight(baseWeight: nat, weights: seq<nat>)
    requires baseWeight > 0 && TotalOf(weights) <= U64_MAX
    ensures var gap := Fees(baseWeight, weights) - Fee(baseWeight, TotalOf(weights));
            -(|weights| + 1) <= 2 * gap <= |weights| + 1
  {
    var i, parts := Rate(baseWeight);
    FeesAreLinear(baseWeight, weights, i, parts);
    SingleTerm(i, parts, TotalOf(weights));
    TermIsLinear(i, parts, TotalOf(weights));
  }
}
