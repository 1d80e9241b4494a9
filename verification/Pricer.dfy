/** The BIN15 integer pricer: log-moneyness to second order, the settlement
    variance horizon, the TWAP moneyness and the two fair values, with the
    floors, clamps, saturations and the 64-bit wrap of the reference. */
module Pricer {
  import opened Options
  import opened Fixed

  const PHI_POINTS: nat := 4097
  const RECAL_POINTS: nat := 65
  const PHASES: nat := 3
  const PHI_STEP: int := 1_000
  const D_CLAMP: int := 4_096_000
  const RECAL_STEP: int := 15_625
  const U_CLAMP: int := 100_000_000_000
  const PHASE_EARLY_NS: int := 600_000_000_000
  const PHASE_MID_NS: int := 240_000_000_000
  const ONE: int := 1_000_000
  const HALF: int := 500_000
  const NANO: int := 1_000_000_000
  const MINUTE_NS: int := 60_000_000_000

  const I64_MAX: int := 0x7FFF_FFFF_FFFF_FFFF
  const I64_MIN: int := -0x8000_0000_0000_0000
  const TWO_64: int := 0x1_0000_0000_0000_0000
  const U64_MAX: int := 0xFFFF_FFFF_FFFF_FFFF
  const I128_MAX: int := 0x7FFF_FFFF_FFFF_FFFF_FFFF_FFFF_FFFF_FFFF
  const I128_MIN: int := -0x8000_0000_0000_0000_0000_0000_0000_0000

  /** The source refuses a time outside this range before computing with it. */
  type u64 = x: int | 0 <= x <= U64_MAX

  predicate FitsI64(v: int) { I64_MIN <= v <= I64_MAX }

  predicate FitsI128(v: int) { I128_MIN <= v <= I128_MAX }

  /** The truncating cast to a signed 64-bit integer. */
  function WrapI64(v: int): (r: int)
    ensures FitsI64(r)
    ensures FitsI64(v) <==> r == v
    ensures (r - v) % TWO_64 == 0
  {
    (v - I64_MIN) % TWO_64 + I64_MIN
  }

  /** Floor square root of a saturated i128, saturating at the largest i64; 0 below 1. */
  function RootI128(v: int): int {
    if v <= 0 then 0 else Min(ISqrt(v), I64_MAX)
  }

  // -- tables ------------------------------------------------------------

  datatype Luts = Luts(phi: seq<int>, recal: seq<seq<int>>)

  predicate Shaped(l: Luts) {
    && |l.phi| == PHI_POINTS
    && |l.recal| == PHASES
    && forall i :: 0 <= i < PHASES ==> |l.recal[i]| == RECAL_POINTS
  }

  /** The law a Phi table passes before it is shipped (its last-point floor is not needed here). */
  ghost predicate PhiLaw(t: seq<int>) {
    |t| > 0 && t[0] == HALF && Within(t, 0, ONE) && Monotone(t)
  }

  ghost predicate Lawful(l: Luts) {
    && Shaped(l)
    && PhiLaw(l.phi)
    && forall i :: 0 <= i < PHASES ==> Monotone(l.recal[i]) && Within(l.recal[i], 0, ONE)
  }

  function PhaseOf(tau: int): nat {
    if tau >= PHASE_EARLY_NS then 0 else if tau >= PHASE_MID_NS then 1 else 2
  }

  function Phi(l: Luts, d: int): int
    requires Shaped(l) && 0 <= d <= D_CLAMP
  {
    Interp(l.phi, PHI_STEP, d)
  }

  function Recal(l: Luts, phase: nat, p: int): int
    requires Shaped(l)
  {
    Interp(l.recal[Min(phase, PHASES - 1)], RECAL_STEP, Clamp(0, p, ONE))
  }

  // -- log-moneyness -----------------------------------------------------

  /** `(mark - strike) / strike` x1e9, floored. */
  function Excess(mark: int, strike: int): int
    requires 0 < strike
  {
    (mark - strike) * NANO / strike
  }

  function SecondOrder(u: int): int { u - u * u / (2 * NANO) }

  function LogMoneyness(mark: int, strike: int): Option<int> {
    if mark <= 0 || strike <= 0 then None
    else
      var u := Excess(mark, strike);
      if u > U_CLAMP || u < -U_CLAMP then None
      else
        var x := SecondOrder(u);
        if FitsI64(x) then Some(x) else None
  }

  /** Completing the square survives the floor: the second-order logarithm is the
      parabola with its vertex at `u == 1e9`, that is at twice the strike. */
  lemma SecondOrderVertex(u: int)
    ensures SecondOrder(u) == HALF * 1_000 - (u - NANO) * (u - NANO) / (2 * NANO)
  {
    var j := u - NANO;
    assert u * u == NANO * NANO + 2 * NANO * j + j * j;
    assert NANO * NANO == (HALF * 1_000) * (2 * NANO);
    var q := j * j / (2 * NANO);
    DivUnique(u * u, 2 * NANO, HALF * 1_000 + j + q);
  }

  lemma SecondOrderRises(u: int, v: int)
    requires u <= v <= NANO
    ensures SecondOrder(u) <= SecondOrder(v)
  {
    SecondOrderVertex(u);
    SecondOrderVertex(v);
    SquareMono(NANO - v, NANO - u);
    assert (u - NANO) * (u - NANO) == (NANO - u) * (NANO - u);
    assert (v - NANO) * (v - NANO) == (NANO - v) * (NANO - v);
    DivMono((v - NANO) * (v - NANO), (u - NANO) * (u - NANO), 2 * NANO);
  }

  lemma ExcessMonotone(m: int, n: int, strike: int)
    requires 0 < strike && m <= n
    ensures Excess(m, strike) <= Excess(n, strike)
  {
    DivMono((m - strike) * NANO, (n - strike) * NANO, strike);
  }

  lemma ExcessRange(mark: int, strike: int)
    requires 0 < strike && 0 < mark
    ensures -NANO <= Excess(mark, strike)
    ensures mark <= 2 * strike ==> Excess(mark, strike) <= NANO
    ensures Excess(2 * strike, strike) == NANO
  {
    DivAtLeast((mark - strike) * NANO, strike, -NANO);
    if mark <= 2 * strike {
      DivAtMost((mark - strike) * NANO, strike, NANO);
    }
    DivUnique(strike * NANO, strike, NANO);
  }

  /** Every moneyness the clamp lets through is bounded, so neither the i64 refusal nor the
      later wrap of `x * 1e6 / den` can ever act. */
  lemma MoneynessBounded(mark: int, strike: int)
    requires 0 < mark && 0 < strike && Excess(mark, strike) <= U_CLAMP
    ensures LogMoneyness(mark, strike) == Some(SecondOrder(Excess(mark, strike)))
    ensures -9_000_000_000_000 <= SecondOrder(Excess(mark, strike)) <= HALF * 1_000
  {
    var u := Excess(mark, strike);
    ExcessRange(mark, strike);
    SecondOrderVertex(u);
    var j := if u >= NANO then u - NANO else NANO - u;
    assert (u - NANO) * (u - NANO) == j * j;
    SquareMono(j, U_CLAMP);
    DivAtLeast(j * j, 2 * NANO, 0);
    DivMono(j * j, U_CLAMP * U_CLAMP, 2 * NANO);
  }

  /** How far past twice the strike the parabola still rounds to its peak. */
  const FLAT: int := 44_721

  lemma PeakOfSecondOrder(u: int)
    ensures SecondOrder(u) <= HALF * 1_000
    ensures NANO <= u <= NANO + FLAT ==> SecondOrder(u) == HALF * 1_000
    ensures NANO + FLAT < u ==> SecondOrder(u) < HALF * 1_000
  {
    SecondOrderVertex(u);
    var j := u - NANO;
    DivAtLeast(j * j, 2 * NANO, 0);
    if 0 <= j <= FLAT {
      SquareMono(j, FLAT);
      DivUnique(j * j, 2 * NANO, 0);
    } else if FLAT < j {
      SquareMono(FLAT + 1, j);
      DivAtLeast(j * j, 2 * NANO, 1);
    }
  }

  lemma MoneynessBelow(m: int, mark: int, strike: int)
    requires 0 < m <= mark && 0 < strike && Excess(mark, strike) <= NANO + FLAT
    ensures LogMoneyness(m, strike).Some? && LogMoneyness(mark, strike).Some?
    ensures LogMoneyness(m, strike).value <= LogMoneyness(mark, strike).value
  {
    var v, u := Excess(m, strike), Excess(mark, strike);
    ExcessMonotone(m, mark, strike);
    MoneynessBounded(m, strike);
    MoneynessBounded(mark, strike);
    PeakOfSecondOrder(u);
    if u <= NANO {
      SecondOrderRises(v, u);
    }
  }

  /** The log-moneyness of a mark is at least that of every smaller mark exactly up to
      (a rounding sliver past) twice the strike; beyond that it has fallen. */
  lemma MoneynessPeaksAtTwiceStrike(mark: int, strike: int)
    requires 0 < mark && 0 < strike && Excess(mark, strike) <= U_CLAMP
    ensures LogMoneyness(mark, strike).Some?
    ensures (forall m :: 0 < m <= mark ==>
               && LogMoneyness(m, strike).Some?
               && LogMoneyness(m, strike).value <= LogMoneyness(mark, strike).value)
            <==> Excess(mark, strike) <= NANO + FLAT
  {
    MoneynessBounded(mark, strike);
    if Excess(mark, strike) <= NANO + FLAT {
      forall m | 0 < m <= mark
        ensures LogMoneyness(m, strike).Some?
        ensures LogMoneyness(m, strike).value <= LogMoneyness(mark, strike).value
      {
        MoneynessBelow(m, mark, strike);
      }
    } else {
      ExcessRange(mark, strike);
      MoneynessBounded(2 * strike, strike);
      PeakOfSecondOrder(NANO);
      PeakOfSecondOrder(Excess(mark, strike));
      assert LogMoneyness(2 * strike, strike).value > LogMoneyness(mark, strike).value;
    }
  }

  // -- fair value --------------------------------------------------------

  datatype Fair = Fair(pHat: int, pRaw: int, d: int, den: int, horizon: int)

  function Variance(sig2: int, horizon: int): int {
    var product := Clamp(I128_MIN, sig2 * horizon, I128_MAX);
    if product >= 0 then product / MINUTE_NS else -(-product / MINUTE_NS)
  }

  function Denominator(sig2: int, horizon: int): int { RootI128(Variance(sig2, horizon)) }

  function RawPrice(l: Luts, d: int): int
    requires Shaped(l) && -D_CLAMP <= d <= D_CLAMP
  {
    if d >= 0 then Phi(l, d) else ONE - Phi(l, -d)
  }

  function FairOfD(l: Luts, d: int, den: int, horizon: int): Fair
    requires Shaped(l) && -D_CLAMP <= d <= D_CLAMP
  {
    var raw := RawPrice(l, d);
    Fair(Clamp(0, Recal(l, PhaseOf(horizon), raw), ONE), raw, d, den, horizon)
  }

  function ScaledD(x: int, den: int): int
    requires 0 < den
  {
    Clamp(-D_CLAMP, WrapI64(x * ONE / den), D_CLAMP)
  }

  function FairValue(l: Luts, mark: int, strike: int, tau: int, sig2: int): Option<Fair>
    requires Shaped(l)
  {
    if tau == 0 || sig2 <= 0 then None
    else
      match LogMoneyness(mark, strike)
      case None => None
      case Some(x) =>
        var den := Denominator(sig2, tau);
        if den <= 0 then None else Some(FairOfD(l, ScaledD(x, den), den, tau))
  }

  lemma RawPriceLaw(l: Luts, d: int)
    requires Lawful(l) && -D_CLAMP <= d <= D_CLAMP
    ensures 0 <= RawPrice(l, d) <= ONE
    ensures d >= 0 ==> HALF <= RawPrice(l, d)
    ensures d < 0 ==> RawPrice(l, d) <= HALF
  {
    InterpCell(l.phi, PHI_STEP, if d >= 0 then d else -d);
  }

  lemma RawPriceMonotone(l: Luts, d: int, e: int)
    requires Lawful(l) && -D_CLAMP <= d <= e <= D_CLAMP
    ensures RawPrice(l, d) <= RawPrice(l, e)
  {
    RawPriceLaw(l, d);
    RawPriceLaw(l, e);
    if 0 <= d {
      InterpMonotone(l.phi, PHI_STEP, d, e);
    } else if e < 0 {
      InterpMonotone(l.phi, PHI_STEP, -e, -d);
    }
  }

  /** Through both interpolations and the recalibration the price is a probability that
      never falls when `d` rises. */
  lemma FairOfDMonotone(l: Luts, d: int, e: int, den: int, horizon: int)
    requires Lawful(l) && -D_CLAMP <= d <= e <= D_CLAMP
    ensures FairOfD(l, d, den, horizon).pRaw <= FairOfD(l, e, den, horizon).pRaw
    ensures 0 <= FairOfD(l, d, den, horizon).pHat <= FairOfD(l, e, den, horizon).pHat <= ONE
  {
    RawPriceMonotone(l, d, e);
    RawPriceLaw(l, d);
    RawPriceLaw(l, e);
    InterpMonotone(l.recal[PhaseOf(horizon)], RECAL_STEP, RawPrice(l, d), RawPrice(l, e));
  }

  /** The wrap is the identity on every quotient a bounded moneyness produces. */
  lemma WrapNeverActs(x: int, den: int)
    requires -9_000_000_000_000 <= x <= 9_000_000_000_000 && 0 < den
    ensures WrapI64(x * ONE / den) == x * ONE / den
  {
    DivShrinks(x * ONE, den);
  }

  lemma ScaledDMonotone(x: int, y: int, den: int)
    requires -9_000_000_000_000 <= x <= y <= 9_000_000_000_000 && 0 < den
    ensures ScaledD(x, den) <= ScaledD(y, den)
  {
    WrapNeverActs(x, den);
    WrapNeverActs(y, den);
    DivMono(x * ONE, y * ONE, den);
  }

  /** Exactly when `fair_value` prices. */
  predicate Prices(mark: int, strike: int, tau: int, sig2: int) {
    && tau != 0 && 0 < sig2 && 0 < mark && 0 < strike
    && Excess(mark, strike) <= U_CLAMP
    && 0 < Denominator(sig2, tau)
  }

  lemma FairValueDefined(l: Luts, mark: int, strike: int, tau: int, sig2: int)
    requires Shaped(l)
    ensures FairValue(l, mark, strike, tau, sig2).Some? <==> Prices(mark, strike, tau, sig2)
    ensures Prices(mark, strike, tau, sig2) ==>
              var x := SecondOrder(Excess(mark, strike));
              var den := Denominator(sig2, tau);
              && WrapI64(x * ONE / den) == x * ONE / den
              && FairValue(l, mark, strike, tau, sig2) == Some(FairOfD(l, ScaledD(x, den), den, tau))
  {
    if 0 < mark && 0 < strike && Excess(mark, strike) <= U_CLAMP {
      MoneynessBounded(mark, strike);
      if 0 < Denominator(sig2, tau) {
        WrapNeverActs(SecondOrder(Excess(mark, strike)), Denominator(sig2, tau));
      }
    }
  }

  /** Up to the flat top a higher mark never prices lower, and both marks price or neither does. */
  lemma FairValueBelow(l: Luts, m: int, n: int, strike: int, tau: int, sig2: int)
    requires Lawful(l) && 0 < m <= n && 0 < strike && Excess(n, strike) <= NANO + FLAT
    ensures FairValue(l, m, strike, tau, sig2).Some? <==> FairValue(l, n, strike, tau, sig2).Some?
    ensures FairValue(l, n, strike, tau, sig2).Some? ==>
              var a, b := FairValue(l, m, strike, tau, sig2).value, FairValue(l, n, strike, tau, sig2).value;
              a.d <= b.d && 0 <= a.pRaw <= b.pRaw <= ONE && 0 <= a.pHat <= b.pHat <= ONE
  {
    ExcessMonotone(m, n, strike);
    FairValueDefined(l, m, strike, tau, sig2);
    FairValueDefined(l, n, strike, tau, sig2);
    if Prices(n, strike, tau, sig2) {
      var u, v, den := Excess(m, strike), Excess(n, strike), Denominator(sig2, tau);
      MoneynessBelow(m, n, strike);
      MoneynessBounded(m, strike);
      MoneynessBounded(n, strike);
      ScaledDMonotone(SecondOrder(u), SecondOrder(v), den);
      FairOfDMonotone(l, ScaledD(SecondOrder(u), den), ScaledD(SecondOrder(v), den), den, tau);
      RawPriceLaw(l, ScaledD(SecondOrder(u), den));
      RawPriceLaw(l, ScaledD(SecondOrder(v), den));
    }
  }

  /** In particular up to twice the strike. */
  lemma FairValueMonotone(l: Luts, m: int, n: int, strike: int, tau: int, sig2: int)
    requires Lawful(l) && 0 < m <= n <= 2 * strike
    ensures FairValue(l, m, strike, tau, sig2).Some? <==> FairValue(l, n, strike, tau, sig2).Some?
    ensures FairValue(l, n, strike, tau, sig2).Some? ==>
              var a, b := FairValue(l, m, strike, tau, sig2).value, FairValue(l, n, strike, tau, sig2).value;
              a.d <= b.d && 0 <= a.pRaw <= b.pRaw <= ONE && 0 <= a.pHat <= b.pHat <= ONE
  {
    ExcessRange(n, strike);
    FairValueBelow(l, m, n, strike, tau, sig2);
  }

  /** Every price quoted, on any inputs, is a probability. */
  lemma FairValueIsProbability(l: Luts, mark: int, strike: int, tau: int, sig2: int)
    requires Lawful(l) && FairValue(l, mark, strike, tau, sig2).Some?
    ensures var f := FairValue(l, mark, strike, tau, sig2).value;
            0 <= f.pHat <= ONE && 0 <= f.pRaw <= ONE && f.den > 0 && f.horizon == tau
  {
    FairValueDefined(l, mark, strike, tau, sig2);
    RawPriceLaw(l, FairValue(l, mark, strike, tau, sig2).value.d);
  }

  /** A rising Phi table and the identity recalibration, for the witness below. */
  function SlopedLuts(): Luts {
    Luts(seq(PHI_POINTS, i => HALF + 100 * i),
         seq(PHASES, _ => seq(RECAL_POINTS, k => k * RECAL_STEP)))
  }

  lemma SlopedLawful()
    ensures Lawful(SlopedLuts())
  {
    var l := SlopedLuts();
    assert PhiLaw(l.phi);
    forall i | 0 <= i < PHASES
      ensures Monotone(l.recal[i]) && Within(l.recal[i], 0, ONE)
    {
    }
  }

  lemma UnitDenominator()
    ensures Denominator(NANO * NANO, MINUTE_NS) == NANO
  {
    ISqrtUnique(NANO * NANO, NANO);
    assert Variance(NANO * NANO, MINUTE_NS) == NANO * NANO;
  }

  lemma SlopedPrice(d: int)
    requires 0 <= d <= HALF
    ensures RawPrice(SlopedLuts(), d) == HALF + d / 10
    ensures FairOfD(SlopedLuts(), d, NANO, MINUTE_NS).pHat == HALF + d / 10
  {
    var l, p := SlopedLuts(), HALF + d / 10;
    assert Phi(l, d) == p;
    assert Recal(l, PhaseOf(MINUTE_NS), p) == p;
  }

  /** Past the flat top the price has fallen: on these tables every such mark that prices at all is
      priced below twice the strike. */
  lemma FairValueFallsPastTwiceStrike(mark: int, strike: int)
    requires 0 < mark && 0 < strike && NANO + FLAT < Excess(mark, strike) <= U_CLAMP
    ensures 2 * strike < mark && Lawful(SlopedLuts())
    ensures var top := FairValue(SlopedLuts(), 2 * strike, strike, MINUTE_NS, NANO * NANO);
            var fallen := FairValue(SlopedLuts(), mark, strike, MINUTE_NS, NANO * NANO);
            top.Some? && fallen.Some? && fallen.value.pRaw < top.value.pRaw && fallen.value.pHat < top.value.pHat
  {
    var l, sig2 := SlopedLuts(), NANO * NANO;
    ExcessRange(mark, strike);
    ExcessRange(2 * strike, strike);
    SlopedLawful();
    UnitDenominator();
    PeakOfSecondOrder(NANO);
    PeakOfSecondOrder(Excess(mark, strike));
    MoneynessBounded(mark, strike);
    FairValueDefined(l, 2 * strike, strike, MINUTE_NS, sig2);
    FairValueDefined(l, mark, strike, MINUTE_NS, sig2);
    var x := SecondOrder(Excess(mark, strike));
    assert ScaledD(HALF * 1_000, NANO) == HALF;
    ScaledDMonotone(x, HALF * 1_000 - 1, NANO);
    assert ScaledD(HALF * 1_000 - 1, NANO) == HALF - 1;
    FairOfDMonotone(l, ScaledD(x, NANO), HALF - 1, NANO, MINUTE_NS);
    SlopedPrice(HALF - 1);
    SlopedPrice(HALF);
  }

  /** At least the price of every lower mark, on every lawful table and at every time and volatility. */
  ghost predicate PricedAtTop(mark: int, strike: int) {
    forall l: Luts, m: int, tau: int, sig2: int ::
      Lawful(l) && 0 < m <= mark && FairValue(l, mark, strike, tau, sig2).Some? ==>
        && FairValue(l, m, strike, tau, sig2).Some?
        && FairValue(l, m, strike, tau, sig2).value.pHat <= FairValue(l, mark, strike, tau, sig2).value.pHat
  }

  /** Fair value rises with the mark exactly up to the flat top at twice the strike; beyond it the
      property holds again only where nothing is priced at all. */
  lemma FairValueRisesExactly(mark: int, strike: int)
    requires 0 < mark && 0 < strike
    ensures PricedAtTop(mark, strike) <==> Excess(mark, strike) <= NANO + FLAT || U_CLAMP < Excess(mark, strike)
  {
    if Excess(mark, strike) <= NANO + FLAT {
      forall l: Luts, m: int, tau: int, sig2: int
        | Lawful(l) && 0 < m <= mark && FairValue(l, mark, strike, tau, sig2).Some?
        ensures FairValue(l, m, strike, tau, sig2).Some?
        ensures FairValue(l, m, strike, tau, sig2).value.pHat <= FairValue(l, mark, strike, tau, sig2).value.pHat
      {
        FairValueBelow(l, m, mark, strike, tau, sig2);
      }
    } else if Excess(mark, strike) <= U_CLAMP {
      FairValueFallsPastTwiceStrike(mark, strike);
    }
  }
}
