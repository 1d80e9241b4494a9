/** Pricing on the venue's settlement: the binary pays on the average of the mark
    over the last `W` nanoseconds, so the pricer uses the variance-time of that average
    and, inside the window, the part of the average already known. */
module Settlement {
  import opened Options
  import opened Fixed
  import opened Pricer

  /** The settlement window of the 15 minute families and the ledger's cut at its opening. */
  const TWAP_15M_NS: int := 60_000_000_000
  const WINDOW_TAU_NS: int := TWAP_15M_NS / 3

  // -- the variance horizon ----------------------------------------------

  function TwoThirds(w: int): int { (w / 3) * 2 + ((w % 3) * 2) / 3 }

  function Cubic(t: int, w: int): int
    requires 0 < w
  {
    (t * t / w) * t / (3 * w)
  }

  function Horizon(t: u64, w: u64): int {
    if w == 0 then t
    else if t >= w then t - TwoThirds(w)
    else Cubic(t, w)
  }

  /** The form that avoids `2 * w` is the floor of two thirds of `w`. */
  lemma TwoThirdsIsFloor(w: nat)
    ensures TwoThirds(w) == 2 * w / 3
  {
  }

  lemma CubicMonotone(s: nat, t: nat, w: nat)
    requires s <= t && 0 < w
    ensures 0 <= Cubic(s, w) <= Cubic(t, w)
  {
    SquareMono(s, t);
    DivMono(s * s, t * t, w);
    DivAtLeast(s * s, w, 0);
    var a, b := s * s / w, t * t / w;
    MulMono(a, b, s);
    MulMono(s, t, b);
    MulMono(0, a, s);
    DivMono(a * s, b * t, 3 * w);
    DivAtLeast(a * s, 3 * w, 0);
  }

  /** One nanosecond inside the window the cubic has not reached `floor(w / 3)`. */
  lemma CubicAtEdge(w: nat)
    requires 3 <= w
    ensures Cubic(w - 1, w) < w / 3
  {
    var s, third := w - 1, w / 3;
    assert s * s == (w - 2) * w + 1;
    DivUnique(s * s, w, w - 2);
    MulMono(w - 2, 3 * third, w);
    assert (w - 2) * s == (w - 2) * w - (w - 2);
    assert third * (3 * w) == 3 * third * w;
    DivBelow((w - 2) * s, 3 * w, third);
  }

  lemma CubicBelowThird(t: nat, w: nat)
    requires t < w
    ensures 3 <= w ==> Cubic(t, w) < w / 3
    ensures w < 3 ==> Cubic(t, w) == 0
  {
    if w >= 3 {
      CubicAtEdge(w);
      CubicMonotone(t, w - 1, w);
    } else {
      assert Cubic(0, 1) == 0 && Cubic(0, 2) == 0 && Cubic(1, 2) == 0;
    }
  }

  /** The horizon never falls when more time is left, for every window length. */
  lemma HorizonMonotone(s: u64, t: u64, w: u64)
    requires s <= t
    ensures 0 <= Horizon(s, w) <= Horizon(t, w)
  {
    if w > 0 {
      TwoThirdsIsFloor(w);
      if t < w {
        CubicMonotone(s, t, w);
      } else if s < w {
        CubicMonotone(s, w - 1, w);
        CubicBelowThird(w - 1, w);
      }
    }
  }

  /** A third of the window separates "inside" from "ahead" at every time to expiry exactly for
      the windows of at least 3 ns (and for the absent window). */
  lemma ThirdSeparatesWindow(w: u64)
    ensures (forall t: u64 :: Horizon(t, w) < w / 3 <==> t < w) <==> w == 0 || w >= 3
  {
    if w >= 3 {
      TwoThirdsIsFloor(w);
      forall t: u64
        ensures Horizon(t, w) < w / 3 <==> t < w
      {
        if t < w {
          CubicBelowThird(t, w);
        }
      }
    } else if w > 0 {
      CubicBelowThird(0, w);
      assert Horizon(0, w) == 0;
    }
  }

  /** The ledger's filter on the stored horizon drops exactly the rows priced inside the window. */
  lemma WindowTauSeparates(t: u64)
    ensures Horizon(t, TWAP_15M_NS) < WINDOW_TAU_NS <==> t < TWAP_15M_NS
    ensures Horizon(TWAP_15M_NS, TWAP_15M_NS) == WINDOW_TAU_NS
  {
    ThirdSeparatesWindow(TWAP_15M_NS);
  }

  // -- TWAP segments -----------------------------------------------------

  /** A price in force over `[from, to)`. */
  datatype Piece = Piece(px: int, from: int, to: int)

  /** `(px * dt, dt)` of the piece clipped to the window, `(0, 0)` outside it. */
  function Segment(px: int, from: int, to: int, open: int, close: int): (int, int) {
    var lo, hi := Max(from, open), Min(to, close);
    if hi <= lo then (0, 0) else (px * (hi - lo), hi - lo)
  }

  function Accumulate(path: seq<Piece>, open: int, close: int): (int, int) {
    if path == [] then (0, 0)
    else
      var s := Segment(path[0].px, path[0].from, path[0].to, open, close);
      var r := Accumulate(path[1..], open, close);
      (s.0 + r.0, s.1 + r.1)
  }

  /** Each piece starts where the previous one ends. */
  ghost predicate Chained(path: seq<Piece>) {
    && (forall i :: 0 <= i < |path| ==> path[i].from <= path[i].to)
    && (forall i :: 0 < i < |path| ==> path[i - 1].to == path[i].from)
  }

  ghost predicate Covers(path: seq<Piece>, open: int, close: int) {
    path != [] && Chained(path) && path[0].from <= open && close <= path[|path| - 1].to
  }

  /** The price in force at instant `t`; 0 when no piece holds it. */
  ghost function PriceAt(path: seq<Piece>, t: int): int {
    if path == [] then 0
    else if path[0].from <= t < path[0].to then path[0].px
    else PriceAt(path[1..], t)
  }

  /** The instant-by-instant sum of the price over `[lo, hi)`. */
  ghost function Integral(path: seq<Piece>, lo: int, hi: int): int
    decreases hi - lo
  {
    if hi <= lo then 0 else Integral(path, lo, hi - 1) + PriceAt(path, hi - 1)
  }

  lemma {:induction false} IntegralSplit(path: seq<Piece>, lo: int, mid: int, hi: int)
    requires lo <= mid <= hi
    ensures Integral(path, lo, hi) == Integral(path, lo, mid) + Integral(path, mid, hi)
    decreases hi - mid
  {
    if mid < hi {
      IntegralSplit(path, lo, mid, hi - 1);
    }
  }

  lemma {:induction false} IntegralConstant(path: seq<Piece>, px: int, lo: int, hi: int)
    requires lo <= hi && forall t :: lo <= t < hi ==> PriceAt(path, t) == px
    ensures Integral(path, lo, hi) == px * (hi - lo)
    decreases hi - lo
  {
    if lo < hi {
      IntegralConstant(path, px, lo, hi - 1);
    }
  }

  lemma {:induction false} IntegralCongruent(p: seq<Piece>, q: seq<Piece>, lo: int, hi: int)
    requires forall t :: lo <= t < hi ==> PriceAt(p, t) == PriceAt(q, t)
    ensures Integral(p, lo, hi) == Integral(q, lo, hi)
    decreases hi - lo
  {
    if lo < hi {
      IntegralCongruent(p, q, lo, hi - 1);
    }
  }

  lemma ChainedTail(path: seq<Piece>)
    requires Chained(path) && path != []
    ensures Chained(path[1..])
    ensures |path| > 1 ==> path[1..][0].from == path[0].to
  {
    var tail := path[1..];
    forall i | 0 <= i < |tail|
      ensures tail[i].from <= tail[i].to
    {
      assert tail[i] == path[i + 1];
    }
    forall i | 0 < i < |tail|
      ensures tail[i - 1].to == tail[i].from
    {
      assert tail[i - 1] == path[i] && tail[i] == path[i + 1];
    }
  }

  /** Accumulating segments is the instant-by-instant integral over the part of the window the
      path reaches, and its total time is the length of that part. */
  lemma {:induction false} AccumulateIsIntegral(path: seq<Piece>, open: int, close: int)
    requires path != [] && Chained(path) && open <= close
    ensures path[0].from <= path[|path| - 1].to
    ensures var lo := Max(path[0].from, open);
            var hi := Min(path[|path| - 1].to, close);
            Accumulate(path, open, close) == (Integral(path, lo, hi), if lo <= hi then hi - lo else 0)
    decreases |path|
  {
    var first := path[0];
    FirstPiece(path, open, close);
    if |path| == 1 {
      assert path[1..] == [];
    } else {
      var tail, last := path[1..], path[|path| - 1];
      ChainedTail(path);
      AccumulateIsIntegral(tail, open, close);
      assert tail[|tail| - 1] == last;
      IntegralCongruent(path, tail, Max(first.to, open), Min(last.to, close));
      CutAt(path, first.from, first.to, last.to, open, close);
    }
  }

  lemma FirstPiece(path: seq<Piece>, open: int, close: int)
    requires path != [] && Chained(path)
    ensures var p := path[0];
            var lo, hi := Max(p.from, open), Min(p.to, close);
            Segment(p.px, p.from, p.to, open, close) == (Integral(path, lo, hi), if lo <= hi then hi - lo else 0)
  {
    var p := path[0];
    var lo, hi := Max(p.from, open), Min(p.to, close);
    if lo <= hi {
      IntegralConstant(path, p.px, lo, hi);
    }
  }

  /** The window's part of `[a, c)` is its part of `[a, b)` and its part of `[b, c)`. */
  lemma CutAt(path: seq<Piece>, a: int, b: int, c: int, open: int, close: int)
    requires a <= b <= c && open <= close
    ensures Integral(path, Max(a, open), Min(c, close))
            == Integral(path, Max(a, open), Min(b, close)) + Integral(path, Max(b, open), Min(c, close))
  {
    if open < b < close && Max(a, open) <= Min(c, close) {
      IntegralSplit(path, Max(a, open), b, Min(c, close));
    }
  }

  /** A path over the whole window accumulates the window's integral and exactly its length. */
  lemma AccumulateOverWindow(path: seq<Piece>, open: int, close: int)
    requires open <= close && Covers(path, open, close)
    ensures Accumulate(path, open, close) == (Integral(path, open, close), close - open)
  {
    AccumulateIsIntegral(path, open, close);
  }

  /** Any two ways of cutting one price path into pieces accumulate the same area and time. */
  lemma SplitInvariant(p: seq<Piece>, q: seq<Piece>, open: int, close: int)
    requires open <= close && Covers(p, open, close) && Covers(q, open, close)
    requires forall t :: open <= t < close ==> PriceAt(p, t) == PriceAt(q, t)
    ensures Accumulate(p, open, close) == Accumulate(q, open, close)
  {
    AccumulateOverWindow(p, open, close);
    AccumulateOverWindow(q, open, close);
    IntegralCongruent(p, q, open, close);
  }

  lemma {:induction false} IntegralBounds(path: seq<Piece>, lo: int, hi: int, least: int, most: int)
    requires lo <= hi && forall t :: lo <= t < hi ==> least <= PriceAt(path, t) <= most
    ensures least * (hi - lo) <= Integral(path, lo, hi) <= most * (hi - lo)
    decreases hi - lo
  {
    if lo < hi {
      IntegralBounds(path, lo, hi - 1, least, most);
      assert least * (hi - lo) == least * (hi - 1 - lo) + least;
      assert most * (hi - lo) == most * (hi - 1 - lo) + most;
    }
  }

  /** The average lies between the least and the greatest price in force in the window. */
  lemma AverageBetweenExtremes(path: seq<Piece>, open: int, close: int, least: int, most: int)
    requires open < close && Covers(path, open, close)
    requires forall t :: open <= t < close ==> least <= PriceAt(path, t) <= most
    ensures var (area, dt) := Accumulate(path, open, close);
            dt == close - open && least <= area / dt <= most && least * dt <= area <= most * dt
  {
    AccumulateOverWindow(path, open, close);
    IntegralBounds(path, open, close, least, most);
    DivAtLeast(Integral(path, open, close), close - open, least);
    DivAtMost(Integral(path, open, close), close - open, most);
  }

  // -- the fair value on the settlement ----------------------------------

  /** `(A_known + tau * S - W * K) / (S * W)` x1e9, refused where a step leaves 128 bits
      or the result leaves the clamp. */
  function TwapMoneyness(known: int, mark: int, strike: int, t: u64, w: u64): Option<int> {
    if mark <= 0 || strike <= 0 || w == 0 then None
    else if !FitsI128(known) then None
    else
      var tauS := t * mark;
      var ahead := known + tauS;
      var wK := w * strike;
      if !(FitsI128(tauS) && FitsI128(ahead) && FitsI128(wK)) then None
      else
        var x := ahead - wK;
        var num := x * NANO;
        var den := mark * w;
        if !(FitsI128(x) && FitsI128(num) && FitsI128(den)) then None
        else
          var m := num / den;
          if m > U_CLAMP || m < -U_CLAMP then None else Some(m)
  }

  function InsideD(m: int, den: int): int {
    if den <= 0 then (if m >= 0 then D_CLAMP else -D_CLAMP) else ScaledD(m, den)
  }

  function FairValueTwap(l: Luts, mark: int, strike: int, t: u64, w: u64, known: int, sig2: int): Option<Fair>
    requires Shaped(l)
  {
    if w == 0 || t >= w then FairValue(l, mark, strike, Horizon(t, w), sig2)
    else if sig2 <= 0 then None
    else
      match TwapMoneyness(known, mark, strike, t, w)
      case None => None
      case Some(m) =>
        var horizon := Horizon(t, w);
        var den := Denominator(sig2, horizon);
        Some(FairOfD(l, InsideD(m, den), den, horizon))
  }

  lemma PositiveProduct(a: int, b: int)
    requires 0 < a && 0 < b
    ensures 0 < a * b
  {
  }

  lemma ZeroTimeMoneyness(known: int, mark: int, strike: int, w: u64)
    requires TwapMoneyness(known, mark, strike, 0, w).Some?
    ensures TwapMoneyness(known, mark, strike, 0, w).value >= 0 <==> known >= w * strike
  {
    PositiveProduct(mark, w);
    assert 0 * mark == 0;
    DivSign((known - w * strike) * NANO, mark * w);
  }

  lemma ZeroTimeDenominator(sig2: int, w: u64)
    requires 0 < w
    ensures Horizon(0, w) == 0 && Denominator(sig2, 0) == 0
  {
    assert 0 / w == 0 by { DivUnique(0, w, 0); }
    assert 0 / (3 * w) == 0 by { DivUnique(0, 3 * w, 0); }
  }

  /** With no time left, whenever the binary is priced it sits at the table's clamp on the side the
      accumulated area settles: in the money exactly when the area reaches `W * strike`. */
  lemma ZeroTimeLeftSettles(l: Luts, mark: int, strike: int, w: u64, known: int, sig2: int)
    requires Shaped(l) && 0 < w && FairValueTwap(l, mark, strike, 0, w, known, sig2).Some?
    ensures FairValueTwap(l, mark, strike, 0, w, known, sig2)
         == Some(FairOfD(l, if known >= w * strike then D_CLAMP else -D_CLAMP, 0, 0))
  {
    ZeroTimeDenominator(sig2, w);
    ZeroTimeMoneyness(known, mark, strike, w);
  }

  lemma TwapMoneynessBounded(known: int, mark: int, strike: int, t: u64, w: u64)
    ensures TwapMoneyness(known, mark, strike, t, w).Some? ==>
              -U_CLAMP <= TwapMoneyness(known, mark, strike, t, w).value <= U_CLAMP
  {
  }

  /** Inside the window the wrap never acts either. */
  lemma TwapWrapNeverActs(known: int, mark: int, strike: int, t: u64, w: u64, den: int)
    requires 0 < den && TwapMoneyness(known, mark, strike, t, w).Some?
    ensures var q := TwapMoneyness(known, mark, strike, t, w).value * ONE / den; WrapI64(q) == q
  {
    TwapMoneynessBounded(known, mark, strike, t, w);
    WrapNeverActs(TwapMoneyness(known, mark, strike, t, w).value, den);
  }

  lemma InsideDMonotone(m: int, n: int, den: int)
    requires -U_CLAMP <= m <= n <= U_CLAMP
    ensures -D_CLAMP <= InsideD(m, den) <= InsideD(n, den) <= D_CLAMP
  {
    if den > 0 {
      ScaledDMonotone(m, n, den);
    }
  }

  lemma TwapMoneynessMonotone(known: int, more: int, mark: int, high: int, low: int, t: u64, w: u64)
    requires known <= more && low <= high
    requires TwapMoneyness(known, mark, high, t, w).Some? && TwapMoneyness(more, mark, low, t, w).Some?
    ensures TwapMoneyness(known, mark, high, t, w).value <= TwapMoneyness(more, mark, low, t, w).value
  {
    PositiveProduct(mark, w);
    MulMono(low, high, w);
    DivMono((known + t * mark - w * high) * NANO, (more + t * mark - w * low) * NANO, mark * w);
  }

  /** Inside the window a lower strike or a larger accumulated area never prices lower. */
  lemma TwapPriceMonotone(l: Luts, mark: int, high: int, low: int, t: u64, w: u64, known: int, more: int, sig2: int)
    requires Lawful(l) && t < w && low <= high && known <= more
    requires FairValueTwap(l, mark, high, t, w, known, sig2).Some?
    requires FairValueTwap(l, mark, low, t, w, more, sig2).Some?
    ensures 0 <= FairValueTwap(l, mark, high, t, w, known, sig2).value.pHat
              <= FairValueTwap(l, mark, low, t, w, more, sig2).value.pHat <= ONE
  {
    TwapMoneynessMonotone(known, more, mark, high, low, t, w);
    TwapMoneynessBounded(known, mark, high, t, w);
    TwapMoneynessBounded(more, mark, low, t, w);
    var den := Denominator(sig2, Horizon(t, w));
    var m := TwapMoneyness(known, mark, high, t, w).value;
    var n := TwapMoneyness(more, mark, low, t, w).value;
    InsideDMonotone(m, n, den);
    FairOfDMonotone(l, InsideD(m, den), InsideD(n, den), den, Horizon(t, w));
  }

  /** Comparing two floored quotients by cross-multiplying. */
  lemma DivCross(n: int, d: int, m: int, e: int)
    requires 0 < d && 0 < e && n * e <= m * d
    ensures n / d <= m / e
  {
    var q := n / d;
    assert n == q * d + n % d;
    MulMono(q * d, n, e);
    assert q * d * e == q * e * d;
    Cancel(q * e, m, d);
    DivAtLeast(m, e, q);
  }

  lemma Cancel(a: int, b: int, d: int)
    requires 0 < d
    ensures a * d <= b * d ==> a <= b
  {
    if b < a {
      MulMono(b + 1, a, d);
      assert (b + 1) * d == b * d + d;
    }
  }

  lemma CrossProducts(x: int, a: int, b: int, t: int, w: int)
    ensures (x + t * a) * NANO * (b * w) - (x + t * b) * NANO * (a * w) == NANO * w * (x * (b - a))
  {
    assert (x + t * a) * (b * w) == x * b * w + t * a * b * w;
    assert (x + t * b) * (a * w) == x * a * w + t * a * b * w;
    assert x * b * w - x * a * w == w * (x * (b - a));
  }

  /** Inside the window the moneyness does not fall in the mark while the known area is at most
      `w * strike`, and does not rise in it from there on: what is known has then decided the side. */
  lemma TwapMoneynessInMark(known: int, low: int, high: int, strike: int, t: u64, w: u64)
    requires low <= high
    requires TwapMoneyness(known, low, strike, t, w).Some? && TwapMoneyness(known, high, strike, t, w).Some?
    ensures known <= w * strike ==>
              TwapMoneyness(known, low, strike, t, w).value <= TwapMoneyness(known, high, strike, t, w).value
    ensures known >= w * strike ==>
              TwapMoneyness(known, high, strike, t, w).value <= TwapMoneyness(known, low, strike, t, w).value
  {
    var x := known - w * strike;
    PositiveProduct(low, w);
    PositiveProduct(high, w);
    CrossProducts(x, low, high, t, w);
    SignedProduct(x, high - low, NANO * w);
    var n, m := (x + t * low) * NANO, (x + t * high) * NANO;
    if x <= 0 {
      DivCross(n, low * w, m, high * w);
    }
    if x >= 0 {
      DivCross(m, high * w, n, low * w);
    }
  }

  lemma SignedProduct(x: int, y: int, z: int)
    requires 0 <= y && 0 <= z
    ensures x <= 0 ==> z * (x * y) <= 0
    ensures x >= 0 ==> z * (x * y) >= 0
  {
    if x <= 0 {
      MulMono(x, 0, y);
      MulMono(x * y, 0, z);
    }
    if x >= 0 {
      MulMono(0, x, y);
      MulMono(0, x * y, z);
    }
  }

  /** So is the price. */
  lemma TwapPriceInMark(l: Luts, low: int, high: int, strike: int, t: u64, w: u64, known: int, sig2: int)
    requires Lawful(l) && t < w && low <= high
    requires FairValueTwap(l, low, strike, t, w, known, sig2).Some?
    requires FairValueTwap(l, high, strike, t, w, known, sig2).Some?
    ensures var a := FairValueTwap(l, low, strike, t, w, known, sig2).value.pHat;
            var b := FairValueTwap(l, high, strike, t, w, known, sig2).value.pHat;
            && (known <= w * strike ==> 0 <= a <= b <= ONE)
            && (known >= w * strike ==> 0 <= b <= a <= ONE)
  {
    TwapMoneynessInMark(known, low, high, strike, t, w);
    TwapMoneynessBounded(known, low, strike, t, w);
    TwapMoneynessBounded(known, high, strike, t, w);
    var den, horizon := Denominator(sig2, Horizon(t, w)), Horizon(t, w);
    var m, n := TwapMoneyness(known, low, strike, t, w).value, TwapMoneyness(known, high, strike, t, w).value;
    if known <= w * strike {
      InsideDMonotone(m, n, den);
      FairOfDMonotone(l, InsideD(m, den), InsideD(n, den), den, horizon);
    }
    if known >= w * strike {
      InsideDMonotone(n, m, den);
      FairOfDMonotone(l, InsideD(n, den), InsideD(m, den), den, horizon);
    }
  }
}
