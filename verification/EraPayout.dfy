/** `EraPayout::era_payout` of the relay runtime: rounding-down fixed-point arithmetic. */
module EraPayout {
  import opened Bits

  const DIV: nat := 1_000_000_000_000_000_000  // one, in FixedU128
  const MILLISECONDS_PER_YEAR: nat := 31_557_600_000
  const FIXED_TOTAL_ISSUANCE: nat := 5_216_342_402_773_185_773
  const TREASURY_ERA_PERCENT: nat := 20
  const I128_MAX: nat := 0x7fff_ffff_ffff_ffff_ffff_ffff_ffff_ffff
  const U128_MAX: nat := 0xffff_ffff_ffff_ffff_ffff_ffff_ffff_ffff

  function Min(a: nat, b: nat): nat {
    if a < b then a else b
  }

  // `FixedU128::from_rational`, saturating at the inner type's maximum.
  function FromRational(n: nat, d: nat): nat
    requires d > 0
  {
    Min(n * DIV / d, U128_MAX)
  }

  // `saturating_mul_int` on an i128.
  function SaturatingMulInt(fixed: nat, n: nat): nat {
    Min(fixed * n / DIV, I128_MAX)
  }

  function YearlyEmission(): nat {
    SaturatingMulInt(FromRational(8, 100), FIXED_TOTAL_ISSUANCE)
  }

  function EraEmission(millis: U64): nat {
    SaturatingMulInt(FromRational(millis, MILLISECONDS_PER_YEAR), YearlyEmission())
  }

  /** The pair (stakers, treasury). */
  function Payout(millis: U64): (nat, nat) {
    var emission := EraEmission(millis);
    var treasury := SaturatingMulInt(FromRational(TREASURY_ERA_PERCENT, 100), emission);
    (if emission >= treasury then emission - treasury else 0, treasury)
  }

  const YEARLY: nat := 417_307_392_221_854_861

  lemma YearlyIs()
    ensures YearlyEmission() == YEARLY
  {
  }

  function Share(millis: nat): nat {
    millis * DIV / MILLISECONDS_PER_YEAR
  }

  lemma DivMonotone(a: nat, b: nat, d: nat)
    requires a <= b && d > 0
    ensures a / d <= b / d
  {
    MulMonotone(b / d + 1, a / d, d);
  }

  /** For every u64 duration no intermediate value saturates. */
  lemma NothingSaturates(millis: U64)
    ensures EraEmission(millis) == Share(millis) * YEARLY / DIV
    ensures EraEmission(millis) < I128_MAX && Share(millis) < U128_MAX
  {
    YearlyIs();
    DivMonotone(millis * DIV, U64_BOUND * DIV, MILLISECONDS_PER_YEAR);
    var top := U64_BOUND * DIV / MILLISECONDS_PER_YEAR;
    assert Share(millis) <= top < U128_MAX;
    assert Share(millis) * YEARLY <= top * YEARLY;
    DivMonotone(Share(millis) * YEARLY, top * YEARLY, DIV);
  }

  /** The two shares add up to the emission, and the treasury gets a fifth of it, rounded down. */
  lemma PayoutConserves(millis: U64)
    ensures Payout(millis).0 + Payout(millis).1 == EraEmission(millis)
    ensures Payout(millis).1 == EraEmission(millis) / 5
  {
    NothingSaturates(millis);
    var e := EraEmission(millis);
    assert FromRational(TREASURY_ERA_PERCENT, 100) == DIV / 5;
    FifthOf(e);
  }

  lemma FifthOf(e: nat)
    ensures (DIV / 5) * e / DIV == e / 5
  {
    var q, r := e / 5, e % 5;
    assert (DIV / 5) * e == q * DIV + (DIV / 5) * r;
    assert 0 <= (DIV / 5) * r < DIV;
  }

  lemma EmissionMonotone(a: U64, b: U64)
    requires a <= b
    ensures EraEmission(a) <= EraEmission(b)
  {
    NothingSaturates(a);
    NothingSaturates(b);
    DivMonotone(a * DIV, b * DIV, MILLISECONDS_PER_YEAR);
    assert Share(a) * YEARLY <= Share(b) * YEARLY;
    DivMonotone(Share(a) * YEARLY, Share(b) * YEARLY, DIV);
  }

  /** A year of 365 and a quarter days emits exactly eight percent of the issuance, rounded down. */
  lemma YearEmitsEightPercent()
    ensures var year := 36525 * 24 * 60 * 60 * 10;
      year < U64_BOUND && EraEmission(year) == 5_216_342_402_773_185_773 * 8 / 100
  {
    var year := 36525 * 24 * 60 * 60 * 10;
    NothingSaturates(year);
    assert Share(year) == DIV;
  }

  lemma FloorSum(x: nat, y: nat, d: nat)
    requires d > 0
    ensures x / d + y / d <= (x + y) / d <= x / d + y / d + 1
  {
    SumOfParts(x, x / d, x % d, y, y / d, y % d, d);
  }

  lemma SumOfParts(x: nat, q: nat, r: nat, y: nat, p: nat, s: nat, d: nat)
    requires r < d && s < d && x == q * d + r && y == p * d + s
    ensures q + p <= (x + y) / d <= q + p + 1
  {
    assert (q + p) * d == q * d + p * d && (q + p + 1) * d == q * d + p * d + d;
    if r + s < d {
      DivUnique(x + y, q + p, r + s, d);
    } else {
      DivUnique(x + y, q + p + 1, r + s - d, d);
    }
  }

  /** Splitting an era in two changes the total emission by at most two units, never upwards. */
  lemma NearlyAdditive(a: U64, b: U64)
    requires a + b < U64_BOUND
    ensures EraEmission(a) + EraEmission(b) <= EraEmission(a + b) <= EraEmission(a) + EraEmission(b) + 2
  {
    NothingSaturates(a);
    NothingSaturates(b);
    NothingSaturates(a + b);
    var s, t, u := Share(a), Share(b), Share(a + b);
    assert (a + b) * DIV == a * DIV + b * DIV;
    FloorSum(a * DIV, b * DIV, MILLISECONDS_PER_YEAR);
    assert s + t <= u <= s + t + 1;
    FloorSum(s * YEARLY, t * YEARLY, DIV);
    FloorSum((s + t) * YEARLY, YEARLY, DIV);
    assert (s + t) * YEARLY == s * YEARLY + t * YEARLY;
    DivMonotone((s + t) * YEARLY, u * YEARLY, DIV);
    DivMonotone(u * YEARLY, (s + t) * YEARLY + YEARLY, DIV);
  }
}
