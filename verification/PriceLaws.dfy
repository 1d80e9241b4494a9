/** What the BIN15 price is, by inequalities instead of the functions that compute it: the excess and its
    second-order logarithm, the deviation at the horizon, the standardised `d`, and the two tables. */
module PriceLaws {
  import opened Options
  import opened Fixed
  import opened Pricer
  import opened Settlement

  // -- the horizon -------------------------------------------------------

  /** Ahead of the window the horizon is the time left less two thirds of the window; inside it is the
      cube of the time left over three squares of the window; each floored. */
  ghost predicate IsHorizon(h: int, t: int, w: int) {
    if w == 0 then h == t
    else if t >= w then 3 * (t - h) <= 2 * w < 3 * (t - h + 1)
    else 0 <= h && 3 * h * (w * w) <= t * t * t <= 3 * (h + 1) * (w * w) + t * w
  }

  lemma HorizonLaw(t: u64, w: u64)
    ensures IsHorizon(Horizon(t, w), t, w)
  {
    if 0 < w <= t {
      TwoThirdsIsFloor(w);
    } else if t < w {
      MulMono(0, t, t);
      DivLaw(t * t, w);
      DivAtLeast(t * t, w, 0);
      var q := t * t / w;
      MulMono(0, q, t);
      DivLaw(q * t, 3 * w);
      DivAtLeast(q * t, 3 * w, 0);
      CubicBounds(t, w, q, q * t / (3 * w));
    }
  }

  lemma CubicBounds(t: int, w: int, q: int, h: int)
    requires 0 <= t && 0 < w && q * w <= t * t < (q + 1) * w && h * (3 * w) <= q * t < (h + 1) * (3 * w)
    ensures 3 * h * (w * w) <= t * t * t <= 3 * (h + 1) * (w * w) + t * w
  {
    var ww := w * w;
    MulMono(h * (3 * w), q * t, w);
    assert h * (3 * w) * w == 3 * h * ww;
    MulMono(q * w, t * t, t);
    assert q * w * t == q * t * w;
    MulMono(t * t, (q + 1) * w, t);
    assert (q + 1) * w * t == q * t * w + t * w;
    MulMono(q * t, (h + 1) * (3 * w), w);
    assert (h + 1) * (3 * w) * w == 3 * (h + 1) * ww;
  }

  // -- the deviation and d -----------------------------------------------

  /** `den` is the floored root of the per-minute variance times the horizon in minutes, the product
      saturated at 128 bits. */
  ghost predicate IsDenominator(den: int, sig2: int, horizon: int) {
    0 <= den && den * den * MINUTE_NS <= Min(sig2 * horizon, I128_MAX) < (den + 1) * (den + 1) * MINUTE_NS
  }

  lemma DenominatorLaw(sig2: int, horizon: int)
    requires 0 <= sig2 && 0 <= horizon
    ensures IsDenominator(Denominator(sig2, horizon), sig2, horizon)
  {
    MulMono(0, sig2, horizon);
    var p := Min(sig2 * horizon, I128_MAX);
    DivLaw(p, MINUTE_NS);
    DivAtLeast(p, MINUTE_NS, 0);
    var v, den := p / MINUTE_NS, Denominator(sig2, horizon);
    assert v == Variance(sig2, horizon);
    SmallRoot(v);
    MulMono(den * den, v, MINUTE_NS);
    MulMono(v + 1, (den + 1) * (den + 1), MINUTE_NS);
  }

  /** The root of a saturated variance is far below its own cap. */
  lemma SmallRoot(v: int)
    requires 0 <= v <= I128_MAX / MINUTE_NS
    ensures var r := RootI128(v); 0 <= r && r * r <= v < (r + 1) * (r + 1)
  {
    if v > 0 && I64_MAX <= ISqrt(v) {
      SquareMono(I64_MAX, ISqrt(v));
    }
  }

  lemma NoTimeNoRoot(sig2: int, horizon: int)
    requires 0 < sig2
    ensures horizon < 0 ==> Denominator(sig2, horizon) == 0
  {
    if horizon < 0 {
      MulMono(horizon, 0, sig2);
      DivAtLeast(-Clamp(I128_MIN, sig2 * horizon, I128_MAX), MINUTE_NS, 0);
    }
  }

  /** `d` is `x / den` in millionths, floored, within the clamp. */
  ghost predicate IsScaled(d: int, x: int, den: int) {
    && -D_CLAMP <= d <= D_CLAMP
    && (-D_CLAMP < d ==> d * den <= x * ONE)
    && (d < D_CLAMP ==> x * ONE < (d + 1) * den)
  }

  lemma ScaledLaw(x: int, den: int)
    requires -U_CLAMP * 90 <= x <= U_CLAMP * 90 && 0 < den
    ensures IsScaled(ScaledD(x, den), x, den)
  {
    WrapNeverActs(x, den);
    DivLaw(x * ONE, den);
    var q, d := x * ONE / den, ScaledD(x, den);
    MulMono(Min(d, q), q, den);
    MulMono(q + 1, Max(d, q) + 1, den);
  }

  // -- the tables --------------------------------------------------------

  /** The recalibration phase is the horizon's: ten minutes and more, four and more, less. */
  ghost predicate InPhase(phase: nat, horizon: int) {
    && phase < PHASES
    && (phase == 0 <==> PHASE_EARLY_NS <= horizon)
    && (phase == 2 <==> horizon < PHASE_MID_NS)
  }

  /** A price at `d` and `horizon`: Phi of `d`, its complement below zero, recalibrated at the phase. */
  ghost predicate IsPriceAt(l: Luts, f: Fair, horizon: int)
    requires Shaped(l)
  {
    && f.horizon == horizon && -D_CLAMP <= f.d <= D_CLAMP && 0 <= f.pRaw <= ONE
    && OnLine(l.phi, PHI_STEP, if f.d >= 0 then f.d else -f.d, if f.d >= 0 then f.pRaw else ONE - f.pRaw)
    && exists phase: nat :: InPhase(phase, horizon) && OnLine(l.recal[phase], RECAL_STEP, f.pRaw, f.pHat)
  }

  lemma PriceAtLaw(l: Luts, d: int, den: int, horizon: int)
    requires Lawful(l) && -D_CLAMP <= d <= D_CLAMP
    ensures IsPriceAt(l, FairOfD(l, d, den, horizon), horizon)
  {
    var raw, phase := RawPrice(l, d), PhaseOf(horizon);
    RawPriceLaw(l, d);
    InterpOnLine(l.phi, PHI_STEP, if d >= 0 then d else -d);
    InterpOnLine(l.recal[phase], RECAL_STEP, raw);
    InterpCell(l.recal[phase], RECAL_STEP, raw);
    assert InPhase(phase, horizon) && OnLine(l.recal[phase], RECAL_STEP, raw, FairOfD(l, d, den, horizon).pHat);
  }

  // -- the two fair values -----------------------------------------------

  /** `x` is the second-order logarithm of mark over strike: of the excess `u` billionths, `u - u^2 / 2`. */
  ghost predicate IsLogMoneyness(x: int, u: int, mark: int, strike: int) {
    && u * strike <= (mark - strike) * NANO < (u + 1) * strike
    && (u - x) * (2 * NANO) <= u * u < (u - x + 1) * (2 * NANO)
  }

  /** The price ahead of settlement, at horizon `tau`. */
  ghost predicate IsFair(l: Luts, f: Fair, x: int, tau: int, sig2: int)
    requires Shaped(l)
  {
    IsDenominator(f.den, sig2, tau) && 0 < f.den && IsScaled(f.d, x, f.den) && IsPriceAt(l, f, tau)
  }

  lemma FairValueLaw(l: Luts, mark: int, strike: int, tau: int, sig2: int) returns (x: int, u: int)
    requires Lawful(l) && FairValue(l, mark, strike, tau, sig2).Some?
    ensures IsLogMoneyness(x, u, mark, strike) && IsFair(l, FairValue(l, mark, strike, tau, sig2).value, x, tau, sig2)
  {
    FairValueDefined(l, mark, strike, tau, sig2);
    NoTimeNoRoot(sig2, tau);
    u := Excess(mark, strike);
    x := SecondOrder(u);
    MoneynessBounded(mark, strike);
    DivLaw((mark - strike) * NANO, strike);
    DivLaw(u * u, 2 * NANO);
    DenominatorLaw(sig2, tau);
    ScaledLaw(x, Denominator(sig2, tau));
    PriceAtLaw(l, ScaledD(x, Denominator(sig2, tau)), Denominator(sig2, tau), tau);
  }

  /** Ahead of the window the settlement is priced at its horizon, not at the time left. */
  lemma TwapAheadLaw(l: Luts, mark: int, strike: int, t: u64, w: u64, known: int, sig2: int)
    returns (x: int, u: int, h: int)
    requires Lawful(l) && (w == 0 || w <= t) && FairValueTwap(l, mark, strike, t, w, known, sig2).Some?
    ensures IsHorizon(h, t, w) && IsLogMoneyness(x, u, mark, strike)
    ensures IsFair(l, FairValueTwap(l, mark, strike, t, w, known, sig2).value, x, h, sig2)
  {
    h := Horizon(t, w);
    HorizonLaw(t, w);
    x, u := FairValueLaw(l, mark, strike, h, sig2);
  }

  /** `m` is the settlement's excess over the strike, known area and time left at the mark against the
      whole window at the strike, in billionths of the window at the mark. */
  ghost predicate IsTwapMoneyness(m: int, known: int, mark: int, strike: int, t: int, w: int) {
    m * (mark * w) <= (known + t * mark - w * strike) * NANO < (m + 1) * (mark * w)
  }

  /** Inside the window: the same with the settlement's moneyness, and the clamp on its side when nothing
      is left uncertain. */
  lemma TwapInsideLaw(l: Luts, mark: int, strike: int, t: u64, w: u64, known: int, sig2: int)
    returns (m: int, h: int)
    requires Lawful(l) && t < w && FairValueTwap(l, mark, strike, t, w, known, sig2).Some?
    ensures IsHorizon(h, t, w) && IsTwapMoneyness(m, known, mark, strike, t, w)
    ensures var f := FairValueTwap(l, mark, strike, t, w, known, sig2).value;
            && IsDenominator(f.den, sig2, h) && IsPriceAt(l, f, h)
            && (f.den > 0 ==> IsScaled(f.d, m, f.den))
            && (f.den == 0 ==> f.d == if m >= 0 then D_CLAMP else -D_CLAMP)
  {
    h := Horizon(t, w);
    m := TwapMoneyness(known, mark, strike, t, w).value;
    HorizonLaw(t, w);
    PositiveProduct(mark, w);
    DivLaw((known + t * mark - w * strike) * NANO, mark * w);
    TwapMoneynessBounded(known, mark, strike, t, w);
    DenominatorLaw(sig2, h);
    var den := Denominator(sig2, h);
    if den > 0 {
      ScaledLaw(m, den);
    }
    InsideDMonotone(m, m, den);
    PriceAtLaw(l, InsideD(m, den), den, h);
  }

  const TWO_127: int := 0x8000_0000_0000_0000_0000_0000_0000_0000

  predicate In128(v: int) { -TWO_127 <= v < TWO_127 }

  /** Inside the window the settlement is priced exactly when the prices and the variance are positive, no
      step of the moneyness leaves 128 bits, and the moneyness is within its clamp. */
  lemma TwapInsideDefined(l: Luts, mark: int, strike: int, t: u64, w: u64, known: int, sig2: int)
    requires Shaped(l) && t < w
    ensures FairValueTwap(l, mark, strike, t, w, known, sig2).Some? <==>
            var x := known + t * mark - w * strike;
            && 0 < mark && 0 < strike && 0 < sig2
            && In128(known) && In128(t * mark) && In128(known + t * mark) && In128(w * strike)
            && In128(x) && In128(x * NANO) && In128(mark * w)
            && -U_CLAMP * (mark * w) <= x * NANO < (U_CLAMP + 1) * (mark * w)
  {
    if 0 < mark && 0 < strike {
      PositiveProduct(mark, w);
      var num, den := (known + t * mark - w * strike) * NANO, mark * w;
      DivLaw(num, den);
      ClampedQuotient(num, den);
    }
  }

  lemma ClampedQuotient(num: int, den: int)
    requires 0 < den
    ensures -U_CLAMP <= num / den <= U_CLAMP <==> -U_CLAMP * den <= num < (U_CLAMP + 1) * den
  {
    DivLaw(num, den);
    if -U_CLAMP * den <= num < (U_CLAMP + 1) * den {
      DivAtLeast(num, den, -U_CLAMP);
      DivBelow(num, den, U_CLAMP + 1);
    }
    if -U_CLAMP <= num / den <= U_CLAMP {
      MulMono(-U_CLAMP, num / den, den);
      MulMono(num / den + 1, U_CLAMP + 1, den);
    }
  }
}
