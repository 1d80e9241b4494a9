/** What the late price is, without the functions that compute it: the nowcast undoes the ratio the
    rings hold, the deviation and `z` are given by their inequalities, and a price is quoted exactly
    under the named holds' conditions. */
module LateLaws {
  import opened Options
  import opened Fixed
  import opened Sealing
  import opened Sorting
  import opened LateModel
  import opened LateSampler
  import opened LateGrids
  import opened LateFairs
  import P = Pricer

  // -- the nowcast -------------------------------------------------------

  const TWO_NANO: int := 2_000_000_000

  /** `n` is `m` but for the two floors of the ratio and of the nowcast. */
  ghost predicate WithinRounding(n: int, m: int, p: int) { 0 <= n <= m && m * TWO_NANO < (n + 1) * TWO_NANO + p }

  /** The ratio is the mark over the perp's mid, half of bid plus ask, in billionths; the nowcast at a perp
      sum undoes it. */
  lemma NowcastInverts(m: int, p: int)
    requires 0 < m && 0 < p
    ensures RatioOf(m, p) * p <= m * TWO_NANO < (RatioOf(m, p) + 1) * p
    ensures WithinRounding(Nowcast(p, RatioOf(m, p)), m, p)
  {
    var q := RatioOf(m, p);
    DivLaw(m * TWO_NANO, p);
    DivAtLeast(m * TWO_NANO, p, 0);
    assert (q + 1) * p == p * q + p;
    MulMono(0, q, p);
    DivLaw(p * q, TWO_NANO);
    DivAtLeast(p * q, TWO_NANO, 0);
    DivAtMost(p * q, TWO_NANO, m);
  }

  lemma NowcastMonotone(p: int, a: int, b: int)
    requires 0 <= p && a <= b
    ensures Nowcast(p, a) <= Nowcast(p, b)
  {
    MulMono(a, b, p);
    DivMono(p * a, p * b, TWO_NANO);
  }

  /** The seconds the basis looks at: 60 of them ending with the query's, none before second 0. */
  ghost predicate InBasis(secD: int, s: int) { 0 <= s && secD - BASIS_WINDOW < s <= secD }

  ghost function SecondsWith(g: Grid, sec: int, n: nat, v: int): set<int> {
    set s | sec - n < s <= sec && SlotRatio(g, s) == v
  }

  lemma SecondsWithStep(g: Grid, sec: int, n: nat, v: int)
    ensures var one := if SlotRatio(g, sec - n) == v then 1 else 0;
            |SecondsWith(g, sec, n + 1, v)| == |SecondsWith(g, sec, n, v)| + one
  {
    var newer, s := SecondsWith(g, sec, n, v), sec - n;
    assert SecondsWith(g, sec, n + 1, v) == if SlotRatio(g, s) == v then newer + {s} else newer;
  }

  lemma CountSnoc(s: seq<int>, x: int, v: int)
    ensures multiset(s + (if x > 0 then [x] else []))[v] == multiset(s)[v] + if x > 0 && x == v then 1 else 0
  {
    if x <= 0 {
      assert s + [] == s;
    }
  }

  ghost predicate CountsAgree(g: Grid, sec: int, n: nat, v: int) {
    forall x: Seal {:trigger Opened(x)} ::
      multiset(Ratios(g, sec, n))[v] == if v > 0 then |SecondsWith(g, sec, n, v)| else 0
  }

  lemma CountsBegin(g: Grid, sec: int, v: int)
    ensures CountsAgree(g, sec, 0, v)
  {
    assert SecondsWith(g, sec, 0, v) == {};
  }

  lemma CountsStep(g: Grid, sec: int, n: nat, v: int)
    requires CountsAgree(g, sec, n, v)
    ensures CountsAgree(g, sec, n + 1, v)
  {
    assert Opened(Seal);
    var x, c := SlotRatio(g, sec - n), multiset(Ratios(g, sec, n))[v];
    SecondsWithStep(g, sec, n, v);
    RatiosStep(g, sec, n, v);
    assert v > 0 ==> |SecondsWith(g, sec, n + 1, v)| == c + if x == v then 1 else 0;
  }

  /** Among the basis values each positive ratio occurs as often as a second holds it, and no other does. */
  lemma {:induction false} RatioCounts(g: Grid, sec: int, n: nat, v: int)
    ensures CountsAgree(g, sec, n, v)
  {
    if n == 0 {
      CountsBegin(g, sec, v);
    } else {
      RatioCounts(g, sec, n - 1, v);
      CountsStep(g, sec, n - 1, v);
    }
  }

  lemma RatiosStep(g: Grid, sec: int, n: nat, v: int)
    ensures var x := SlotRatio(g, sec - n);
            multiset(Ratios(g, sec, n + 1))[v] == multiset(Ratios(g, sec, n))[v] + if x > 0 && x == v then 1 else 0
  {
    var x := SlotRatio(g, sec - n);
    assert Ratios(g, sec, n + 1) == Ratios(g, sec, n) + (if x > 0 then [x] else []);
    CountSnoc(Ratios(g, sec, n), x, v);
  }

  lemma RatioHasSecond(g: Grid, sec: int, n: nat, v: int)
    requires v in Ratios(g, sec, n)
    ensures v > 0 && exists s :: sec - n < s <= sec && SlotRatio(g, s) == v
  {
    RatioCounts(g, sec, n, v);
    assert Opened(Seal);
    assert v in multiset(Ratios(g, sec, n));
    assert SecondsWith(g, sec, n, v) != {};
    var s :| s in SecondsWith(g, sec, n, v);
  }

  lemma SecondIsRatio(g: Grid, sec: int, n: nat, s: int)
    requires sec - n < s <= sec && SlotRatio(g, s) > 0
    ensures SlotRatio(g, s) in Ratios(g, sec, n)
  {
    var v := SlotRatio(g, s);
    RatioCounts(g, sec, n, v);
    assert Opened(Seal);
    assert s in SecondsWith(g, sec, n, v);
    assert v in multiset(Ratios(g, sec, n));
  }

  function BasisCount(secD: int): nat { Max(0, Min(BASIS_WINDOW, secD + 1)) }

  lemma BasisUsesCount(g: Grid, secD: int)
    ensures BasisAt(g, secD) == Median(Ratios(g, secD, BasisCount(secD)))
    ensures forall s :: secD - BasisCount(secD) < s <= secD <==> InBasis(secD, s)
  {
  }

  /** There is a basis exactly when some second of the window holds a ratio. */
  lemma BasisExists(g: Grid, secD: int)
    ensures BasisAt(g, secD).Some? <==> exists s :: InBasis(secD, s) && SlotRatio(g, s) > 0
  {
    BasisUsesCount(g, secD);
    var vals := Ratios(g, secD, BasisCount(secD));
    SortLength(vals);
    if vals != [] {
      RatioHasSecond(g, secD, BasisCount(secD), vals[0]);
    }
    forall s | InBasis(secD, s) && SlotRatio(g, s) > 0
      ensures vals != []
    {
      SecondIsRatio(g, secD, BasisCount(secD), s);
    }
  }

  lemma SortLength(vals: seq<int>)
    ensures |Sort(IntLe, vals)| == |vals|
  {
    IntOrder();
    SortLaw(IntLe, vals);
  }

  /** The basis lies among the ratios of its window. */
  lemma BasisBetween(g: Grid, secD: int, a: int, b: int)
    requires BasisAt(g, secD).Some?
    requires forall s :: InBasis(secD, s) && SlotRatio(g, s) > 0 ==> a <= SlotRatio(g, s) <= b
    ensures a <= BasisAt(g, secD).value <= b
  {
    BasisUsesCount(g, secD);
    var vals := Ratios(g, secD, BasisCount(secD));
    SortLength(vals);
    MedianSplits(vals);
    var v := Sort(IntLe, vals);
    InWindow(g, secD, v, 0, a, b);
    InWindow(g, secD, v, |v| - 1, a, b);
  }

  lemma InWindow(g: Grid, secD: int, v: seq<int>, i: nat, a: int, b: int)
    requires multiset(v) == multiset(Ratios(g, secD, BasisCount(secD))) && i < |v|
    requires forall s :: InBasis(secD, s) && SlotRatio(g, s) > 0 ==> a <= SlotRatio(g, s) <= b
    ensures a <= v[i] <= b
  {
    assert v[i] in multiset(v);
    RatioHasSecond(g, secD, BasisCount(secD), v[i]);
    var s :| secD - BasisCount(secD) < s <= secD && SlotRatio(g, s) == v[i];
    assert InBasis(secD, s);
  }

  /** When every ratio of the window is that of one mark to one perp sum, and the perp still has that
      sum, the nowcast is the mark. */
  lemma NowcastIsMark(g: Grid, secD: int, m: int, p: int)
    requires 0 < m && 0 < p && g.perp == p && BasisAt(g, secD).Some?
    requires forall s :: InBasis(secD, s) && SlotRatio(g, s) > 0 ==> SlotRatio(g, s) == RatioOf(m, p)
    ensures WithinRounding(Nowcast(g.perp, BasisAt(g, secD).value), m, p)
  {
    BasisBetween(g, secD, RatioOf(m, p), RatioOf(m, p));
    NowcastInverts(m, p);
  }

  /** In general it lies between the nowcasts of the window's extreme ratios. */
  lemma NowcastBetween(g: Grid, phi: seq<int>, strike: int, expiry: int, wall: int, k: int, a: int, b: int)
    requires |phi| == LATE_PHI_POINTS && LateFairOf(g, phi, strike, expiry, wall, k).Priced?
    requires forall s :: InBasis(wall / SEC, s) && SlotRatio(g, s) > 0 ==> a <= SlotRatio(g, s) <= b
    ensures var f := LateFairOf(g, phi, strike, expiry, wall, k);
            a <= f.basis <= b && Nowcast(g.perp, a) <= f.mNow <= Nowcast(g.perp, b)
  {
    BasisBetween(g, wall / SEC, a, b);
    var f := LateFairOf(g, phi, strike, expiry, wall, k);
    NowcastMonotone(g.perp, a, f.basis);
    NowcastMonotone(g.perp, f.basis, b);
  }

  /** Every second of the basis window that had a fresh mark and perp when it was filled had mark `m` and
      perp sum `p`. */
  ghost predicate SteadyBasis(h: seq<Event>, secD: int, m: int, p: int) {
    forall s :: InBasis(secD, s) && ReferenceAsFilled(h, s).ratio > 0 ==>
                  SampleAt(FillPrefix(h, s), s) == m && PerpAt(FillPrefix(h, s), s) == p
  }

  /** Over any history in time order: if the window's fresh seconds all had mark `m` and perp sum `p`, and
      the perp's last sum is `p`, the price is quoted on a nowcast of `m`. */
  lemma SteadyNowcast(h: seq<Event>, phi: seq<int>, strike: int, expiry: int, wall: int, k: int, m: int, p: int)
    requires |phi| == LATE_PHI_POINTS && Chronological(h + [Query(wall)]) && 0 < m && 0 < p
    requires LateFairOf(Run(true, h + [Query(wall)]), phi, strike, expiry, wall, k).Priced?
    requires SteadyBasis(h + [Query(wall)], wall / SEC, m, p)
    requires LastPerp(h, wall).Some? && LastPerp(h, wall).value.1 == p
    ensures WithinRounding(LateFairOf(Run(true, h + [Query(wall)]), phi, strike, expiry, wall, k).mNow, m, p)
  {
    var h1 := h + [Query(wall)];
    var g := Run(true, h1);
    PricedReads(h, phi, strike, expiry, wall, k);
    CurrentPerpAfter(h, wall);
    forall s | InBasis(wall / SEC, s) && SlotRatio(g, s) > 0
      ensures SlotRatio(g, s) == RatioOf(m, p)
    {
      SlotsAreHistory(h1, s);
    }
    NowcastIsMark(g, wall / SEC, m, p);
  }

  /** A query leaves the quotes, and in time order they are the last ones. */
  lemma CurrentPerpAfter(h: seq<Event>, wall: int)
    requires Chronological(h + [Query(wall)])
    ensures var g := Run(true, h + [Query(wall)]);
            LastPerp(h, wall) == if g.perp > 0 && g.perpWall <= wall then Some((g.perpWall, g.perp)) else None
  {
    var h1 := h + [Query(wall)];
    assert h1[..|h1| - 1] == h;
    forall i | 0 <= i < |h|
      ensures h[i].wall <= wall
    {
      assert h1[i] == h[i];
    }
    CurrentPerp(true, h, wall);
    AdvanceShape(true, Run(true, h), wall / SEC);
  }

  lemma {:induction false} CurrentMark(jump: bool, h: seq<Event>, t: int)
    requires forall i :: 0 <= i < |h| ==> h[i].wall <= t
    ensures var g := Run(jump, h);
            && g.sec >= 0
            && LastMark(h, t) == if g.mark > 0 && g.markWall <= t then Some((g.markWall, g.mark)) else None
    decreases |h|
  {
    if h != [] {
      var h0, e := h[..|h| - 1], h[|h| - 1];
      CurrentMark(jump, h0, t);
      AdvanceShape(jump, Run(jump, h0), if e.Query? then e.wall / SEC else Before(e.wall));
    }
  }

  /** In time order the quotes a query meets are fresh exactly when the history's last ones are. */
  lemma FreshIsHistory(h: seq<Event>, wall: int)
    requires Chronological(h + [Query(wall)])
    ensures var g, m, p := Run(true, h + [Query(wall)]), LastMark(h, wall), LastPerp(h, wall);
            && (FreshQuote(g.mark, g.markWall, wall, MARK_FRESH) <==> m.Some? && wall - m.value.0 < MARK_FRESH)
            && (FreshQuote(g.perp, g.perpWall, wall, PERP_FRESH) <==> p.Some? && wall - p.value.0 < PERP_FRESH)
  {
    var h1 := h + [Query(wall)];
    assert h1[..|h1| - 1] == h;
    forall i | 0 <= i < |h|
      ensures h[i].wall <= wall
    {
      assert h1[i] == h[i];
    }
    CurrentMark(true, h, wall);
    CurrentPerpAfter(h, wall);
    AdvanceShape(true, Run(true, h), wall / SEC);
  }

  // -- the volatility ----------------------------------------------------

  lemma {:induction false} SumNotNegative(log: map<int, Cell>, lo: int, hi: int)
    ensures 0 <= SumR2(log, lo, hi)
    decreases hi - lo
  {
    if lo < hi {
      SumNotNegative(log, lo, hi - 1);
      var _ := ReturnLaw(log, hi);
    }
  }

  /** Sigma is the floored root of the mean squared return over the window, up to its cap. */
  lemma SigmaLaw(g: Grid)
    ensures var sum, n := SumR2(g.log, g.sec - SIGMA_WINDOW, g.sec), CountR(g.log, g.sec - SIGMA_WINDOW, g.sec);
            && (Sigma(g).Some? <==> SIGMA_MIN_OBS <= n)
            && (Sigma(g).Some? ==>
                  var r := Sigma(g).value;
                  && 0 <= r <= SIGMA_MAX && r * r * n <= sum
                  && (r < SIGMA_MAX ==> sum < (r + 1) * (r + 1) * n))
  {
    var sum, n := SumR2(g.log, g.sec - SIGMA_WINDOW, g.sec), CountR(g.log, g.sec - SIGMA_WINDOW, g.sec);
    if SIGMA_MIN_OBS <= n {
      SumNotNegative(g.log, g.sec - SIGMA_WINDOW, g.sec);
      var r := Sigma(g).value;
      DivLaw(sum, n);
      DivAtLeast(sum, n, 0);
      RootCapped(sum / n, SIGMA_MAX);
      MulMono(r * r, sum / n, n);
      if r < SIGMA_MAX {
        MulMono(sum / n + 1, (r + 1) * (r + 1), n);
      }
    }
  }

  /** The saturated root under a cap at most its own. */
  lemma RootCapped(v: int, cap: int)
    requires 0 <= v && 0 <= cap < P.I64_MAX
    ensures var r := Min(P.RootI128(v), cap);
            0 <= r && r * r <= v && (r < cap ==> v < (r + 1) * (r + 1))
  {
    var r := Min(P.RootI128(v), cap);
    if v > 0 {
      SquareMono(r, ISqrt(v));
    }
  }

  // -- the deviation and z -----------------------------------------------

  const SD_UNIT: int := 1_000_000_000_000_000_000_000

  /** `sd` is at most `q` times the root of the average's variance, `cov / 3600`, in the units of `q`. */
  ghost predicate SdAtMost(sd: int, q: int, cov: int) {
    3_600 * (sd * SD_UNIT) * (sd * SD_UNIT) <= q * q * (cov * NANO)
  }

  /** And no less, but for the three floors. */
  ghost predicate SdAtLeast(sd: int, q: int, cov: int) {
    q * q * ((cov - 3_600) * NANO) <= 3_600 * ((sd + 1) * SD_UNIT + q) * ((sd + 1) * SD_UNIT + q)
  }

  lemma SquareUp(a: int, b: int)
    requires 0 <= a <= b
    ensures a * a <= b * b
  {
    MulMono(a, b, a);
    MulMono(a, b, b);
  }

  lemma UpperSquares(x: int, q: int, root: int, v: int, cov: int)
    requires 0 <= x <= q * root && 0 <= q && 0 <= root && root * root <= v * NANO && 3_600 * v <= cov
    ensures 3_600 * x * x <= q * q * (cov * NANO)
  {
    SquareUp(x, q * root);
    var qq := q * q;
    assert (q * root) * (q * root) == qq * (root * root);
    MulMono(root * root, v * NANO, qq);
    MulMono(3_600 * v, cov, NANO);
    MulMono(3_600 * v * NANO, cov * NANO, qq);
    assert 3_600 * (qq * (v * NANO)) == (3_600 * v * NANO) * qq;
  }

  lemma LowerSquares(y: int, q: int, root: int, v: int, cov: int)
    requires 0 <= q && 0 <= root && q * root <= y && v * NANO <= (root + 1) * (root + 1) && cov - 3_600 <= 3_600 * v
    ensures q * q * ((cov - 3_600) * NANO) <= 3_600 * (y + q) * (y + q)
  {
    var qq, up := q * q, root + 1;
    assert q * up == q * root + q;
    MulMono(0, q, up);
    SquareUp(q * up, y + q);
    assert (q * up) * (q * up) == qq * (up * up);
    MulMono(v * NANO, up * up, qq);
    MulMono(cov - 3_600, 3_600 * v, NANO);
    MulMono((cov - 3_600) * NANO, 3_600 * v * NANO, qq);
    assert (3_600 * v * NANO) * qq == 3_600 * (qq * (v * NANO));
  }

  /** Both, the second while the root is below its cap. */
  ghost predicate IsDeviation(sd: int, q: int, cov: int, small: bool) {
    0 <= sd && SdAtMost(sd, q, cov) && (small ==> SdAtLeast(sd, q, cov))
  }

  lemma ScaledRoot(q: int, v: int, cov: int)
    requires 0 <= q && 0 <= v && 3_600 * v <= cov && cov - 3_600 <= 3_600 * v
    ensures IsDeviation(q * P.RootI128(v * NANO) / SD_UNIT, q, cov, v * NANO < P.I64_MAX * P.I64_MAX)
  {
    var root := P.RootI128(v * NANO);
    RootLaw(v * NANO);
    MulMono(0, root, q);
    DivLaw(q * root, SD_UNIT);
    DivAtLeast(q * root, SD_UNIT, 0);
    var sd := q * root / SD_UNIT;
    UpperSquares(sd * SD_UNIT, q, root, v, cov);
    if v * NANO < P.I64_MAX * P.I64_MAX {
      LowerSquares((sd + 1) * SD_UNIT, q, root, v, cov);
    }
  }

  /** The deviation of the average: scale, volatility and nowcast times the root of the variance, which is
      the covariances' sum over 60 squared. */
  lemma DeviationLaw(k: int, sigma: int, mNow: int, a: int, n: nat)
    requires 0 < k && 0 <= sigma && 0 < mNow && 0 < a && n <= SAMPLES
    ensures IsDeviation(Deviation(k, sigma, mNow, a, n), k * sigma * mNow, CovarianceSum(a, n, n), a <= P.U64_MAX)
  {
    var q, cov := k * sigma * mNow, CovarianceSum(a, n, n);
    MulMono(0, sigma, k);
    MulMono(0, k * sigma, mNow);
    VarianceTermExact(a, n);
    CovarianceRange(a, n);
    DivLaw(cov, 3_600);
    DivAtLeast(cov, 3_600, 0);
    ScaledRoot(q, cov / 3_600, cov);
    assert Deviation(k, sigma, mNow, a, n) == q * P.RootI128(cov / 3_600 * NANO) / SD_UNIT;
  }

  lemma RootLaw(v: int)
    requires 0 <= v
    ensures var r := P.RootI128(v);
            0 <= r && r * r <= v && (v < P.I64_MAX * P.I64_MAX ==> v < (r + 1) * (r + 1))
  {
    var r := P.RootI128(v);
    if v > 0 {
      SquareMono(r, ISqrt(v));
      if P.I64_MAX <= ISqrt(v) {
        SquareMono(P.I64_MAX, ISqrt(v));
      }
    }
  }

  lemma {:induction false} SquaresRange(n: nat)
    requires n <= SAMPLES
    ensures 0 <= SumOfSquares(n) <= n * 3_600
  {
    if n > 0 {
      SquaresRange(n - 1);
      SquareUp(n - 1, SAMPLES);
    }
  }

  /** With a lead that fits 64 bits the root is far from its cap. */
  lemma CovarianceRange(a: int, n: nat)
    requires 0 < a && n <= SAMPLES
    ensures 0 <= CovarianceSum(a, n, n)
    ensures a <= P.U64_MAX ==> CovarianceSum(a, n, n) / 3_600 * NANO < P.I64_MAX * P.I64_MAX
  {
    VarianceIsCovarianceSum(a, n);
    SquaresRange(n);
    SquareUp(n, SAMPLES);
    assert a * n * n == (n * n) * a;
    MulMono(n * n, 3_600, a);
    MulMono(0, n * n, a);
    if a <= P.U64_MAX {
      DivAtMost(CovarianceSum(a, n, n), 3_600, P.U64_MAX + 60_000_000_000);
    }
  }

  /** `z` is the standardised excess `num / (60 sd)`, floored in millionths, within the clamp; with no
      deviation left, the clamp on its side. */
  ghost predicate IsZ(z: int, num: int, sd: int) {
    && -Z_CLAMP <= z <= Z_CLAMP
    && (sd == 0 ==> z == if num >= 0 then Z_CLAMP else -Z_CLAMP)
    && (sd > 0 ==>
          && (-Z_CLAMP < z ==> z * (SAMPLES * sd) <= num * ONE)
          && (z < Z_CLAMP ==> num * ONE < (z + 1) * (SAMPLES * sd)))
  }

  lemma ZLaw(num: int, sd: int)
    requires 0 <= sd
    ensures IsZ(ZOf(num, sd), num, sd)
  {
    if sd > 0 {
      var d := SAMPLES * sd;
      DivLaw(num * ONE, d);
      var q, z := num * ONE / d, ZOf(num, sd);
      MulMono(Min(z, q), q, d);
      MulMono(q + 1, Max(z, q) + 1, d);
    }
  }

  /** The table's two sides are complements, and each point is on the table's line. */
  lemma PofZLaw(phi: seq<int>, z: int)
    requires |phi| == LATE_PHI_POINTS && 0 <= z <= Z_CLAMP
    ensures OnLine(phi, LATE_PHI_STEP, z, PofZ(phi, z))
    ensures z > 0 ==> PofZ(phi, -z) == ONE - PofZ(phi, z)
  {
    InterpOnLine(phi, LATE_PHI_STEP, z);
  }

  /** A quoted price: the table at the `z` of the observed sum and the nowcast of what is left against 60
      strikes, over the deviation of the average of what is left. */
  ghost predicate IsPrice(f: LateFair, obs: int, phi: seq<int>, strike: int, expiry: int, wall: int, k: int, sd: int) {
    forall x: Seal {:trigger Opened(x)} ::
      && |phi| == LATE_PHI_POINTS && f.Priced? && 0 <= f.nObs <= SAMPLES
      && var left, lead := SAMPLES - f.nObs, (FirstSecond(expiry) + f.nObs) * SEC - wall;
         && 0 < lead
         && IsDeviation(sd, k * f.sigma * f.mNow, CovarianceSum(lead, left, left), lead <= P.U64_MAX)
         && IsZ(f.z, obs + left * f.mNow - SAMPLES * strike, sd)
         && f.pYes == PofZ(phi, f.z)
  }

  lemma PriceOfLaw(phi: seq<int>, strike: int, expiry: int, wall: int, k: int,
                   sigma: int, basis: int, mNow: int, obs: int) returns (sd: int)
    requires |phi| == LATE_PHI_POINTS && wall / SEC <= expiry / SEC && 0 < k && 0 <= sigma && 0 < mNow
    ensures IsPrice(PriceOf(phi, strike, expiry, wall, k, sigma, basis, mNow, obs),
                    obs, phi, strike, expiry, wall, k, sd)
  {
    var nObs := ObservedCount(expiry, wall);
    SamplesPartition(expiry, wall);
    var left, lead := SAMPLES - nObs, FirstFuture(expiry, wall) * SEC - wall;
    sd := Deviation(k, sigma, mNow, lead, left);
    DeviationLaw(k, sigma, mNow, lead, left);
    ZLaw(obs + left * mNow - SAMPLES * strike, sd);
  }

  /** Every price quoted is one, of the observed sum of the elapsed settlement seconds. */
  lemma PriceLaw(g: Grid, phi: seq<int>, strike: int, expiry: int, wall: int, k: int) returns (obs: int, sd: int)
    requires |phi| == LATE_PHI_POINTS && LateFairOf(g, phi, strike, expiry, wall, k).Priced?
    ensures var f, first := LateFairOf(g, phi, strike, expiry, wall, k), FirstSecond(expiry);
            && Observed(g, first, first + f.nObs) == Some(obs)
            && Sigma(g) == Some(f.sigma) && f.mNow == Nowcast(g.perp, f.basis)
            && IsPrice(f, obs, phi, strike, expiry, wall, k, sd)
  {
    var f, first := LateFairOf(g, phi, strike, expiry, wall, k), FirstSecond(expiry);
    SigmaLaw(g);
    obs := Observed(g, first, first + ObservedCount(expiry, wall)).value;
    sd := PriceOfLaw(phi, strike, expiry, wall, k, f.sigma, f.basis, f.mNow, obs);
  }

  // -- the holds ---------------------------------------------------------

  /** The query makes sense: positive strike and scale, a whole settlement window, an expiry not passed,
      and a grid that has reached it. */
  ghost predicate Shaped(g: Grid, strike: int, expiry: int, wall: int, k: int) {
    0 < strike && 0 < k && SAMPLES * SEC <= expiry && wall / SEC <= expiry / SEC && wall / SEC <= g.sec
  }

  ghost predicate FreshQuote(q: int, at: int, wall: int, bound: int) { 0 < q && at <= wall < at + bound }

  ghost predicate AllObserved(g: Grid, expiry: int, wall: int) {
    forall s :: FirstSecond(expiry) <= s <= expiry / SEC && s * SEC <= wall ==> 0 < SlotMark(g, s)
  }

  lemma {:induction false} ObservedExists(g: Grid, from: int, upto: int)
    ensures Observed(g, from, upto).Some? <==> forall s :: from <= s < upto ==> 0 < SlotMark(g, s)
    decreases upto - from
  {
    if from < upto {
      ObservedExists(g, from, upto - 1);
    }
  }

  lemma ObservedAll(g: Grid, expiry: int, wall: int)
    requires wall / SEC <= expiry / SEC
    ensures Observed(g, FirstSecond(expiry), FirstSecond(expiry) + ObservedCount(expiry, wall)).Some?
            <==> AllObserved(g, expiry, wall)
  {
    SamplesPartition(expiry, wall);
    ObservedExists(g, FirstSecond(expiry), FirstSecond(expiry) + ObservedCount(expiry, wall));
  }

  ghost predicate NowcastFits(g: Grid, wall: int) {
    BasisAt(g, wall / SEC).Some? ==> 0 < Nowcast(g.perp, BasisAt(g, wall / SEC).value) <= LateModel.I64_MAX
  }

  ghost predicate HasBasis(g: Grid, wall: int) { exists s :: InBasis(wall / SEC, s) && SlotRatio(g, s) > 0 }

  ghost predicate HasReturns(g: Grid) { SIGMA_MIN_OBS <= CountR(g.log, g.sec - SIGMA_WINDOW, g.sec) }

  /** A price is quoted exactly when the query is in shape, mark and perp are fresh, there are returns
      enough and a ratio for the basis, the nowcast is in range and no elapsed settlement second is
      blank; otherwise the first of these to fail names the hold. */
  lemma HoldsExactly(g: Grid, phi: seq<int>, strike: int, expiry: int, wall: int, k: int)
    requires |phi| == LATE_PHI_POINTS
    ensures var r := LateFairOf(g, phi, strike, expiry, wall, k);
            if !Shaped(g, strike, expiry, wall, k) then r == Held(Shape)
            else if !FreshQuote(g.mark, g.markWall, wall, MARK_FRESH) then r == Held(MarkStale)
            else if !FreshQuote(g.perp, g.perpWall, wall, PERP_FRESH) then r == Held(NoNowcast)
            else if !HasReturns(g) then r == Held(NoSigma)
            else if !HasBasis(g, wall) then r == Held(NoNowcast)
            else if !NowcastFits(g, wall) then r == Held(Shape)
            else if !AllObserved(g, expiry, wall) then r == Held(ObservedStale)
            else r.Priced?
  {
    SigmaLaw(g);
    BasisExists(g, wall / SEC);
    if wall / SEC <= expiry / SEC {
      ObservedAll(g, expiry, wall);
    }
  }
}
