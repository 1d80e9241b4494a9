/** The late-window price of the 15 minute binary: the observed settlement seconds read off the
    grid, the rest nowcast, the average's standard deviation, and the late Phi table. */
module LateFairs {
  import opened Options
  import opened Fixed
  import opened Sealing
  import opened Sorting
  import opened LateModel
  import opened LateSampler
  import opened LateGrids
  import P = Pricer

  const LATE_PHI_POINTS: nat := 4097
  const LATE_PHI_STEP: int := 2_000
  const Z_CLAMP: int := 8_192_000
  const BASIS_WINDOW: int := 60
  const SAMPLES: int := 60
  const ONE: int := 1_000_000
  const NANO: int := 1_000_000_000

  // -- the table ---------------------------------------------------------

  function PhiAt(phi: seq<int>, z: int): int
    requires |phi| == LATE_PHI_POINTS && 0 <= z
  {
    Interp(phi, LATE_PHI_STEP, z)
  }

  function PofZ(phi: seq<int>, z: int): int
    requires |phi| == LATE_PHI_POINTS
  {
    var c := Clamp(-Z_CLAMP, z, Z_CLAMP);
    if c >= 0 then PhiAt(phi, c) else ONE - PhiAt(phi, -c)
  }

  /** The late table's law: it starts at one half and rises within [0, 1e6]. */
  lemma PofZMonotone(phi: seq<int>, y: int, z: int)
    requires |phi| == LATE_PHI_POINTS && P.PhiLaw(phi) && y <= z
    ensures 0 <= PofZ(phi, y) <= PofZ(phi, z) <= ONE
  {
    var a, b := Clamp(-Z_CLAMP, y, Z_CLAMP), Clamp(-Z_CLAMP, z, Z_CLAMP);
    InterpCell(phi, LATE_PHI_STEP, if a >= 0 then a else -a);
    InterpCell(phi, LATE_PHI_STEP, if b >= 0 then b else -b);
    if 0 <= a {
      InterpMonotone(phi, LATE_PHI_STEP, a, b);
    } else if b < 0 {
      InterpMonotone(phi, LATE_PHI_STEP, -b, -a);
    }
  }

  // -- sigma and basis ---------------------------------------------------

  function SlotMark(g: Grid, s: int): int { CellAt(g.log, Owner(g.sec, s % SHORT_RING, SHORT_RING)).mark }

  function SlotRatio(g: Grid, s: int): int { CellAt(g.log, Owner(g.sec, s % SHORT_RING, SHORT_RING)).ratio }

  function Sigma(g: Grid): Option<int> {
    var n := CountR(g.log, g.sec - SIGMA_WINDOW, g.sec);
    if n < SIGMA_MIN_OBS then None
    else Some(Min(P.RootI128(SumR2(g.log, g.sec - SIGMA_WINDOW, g.sec) / n), SIGMA_MAX))
  }

  /** The positive ratios of the `n` seconds ending at `sec`, newest first. */
  function Ratios(g: Grid, sec: int, n: int): seq<int>
    decreases n
  {
    if n <= 0 then []
    else
      var v := SlotRatio(g, sec - (n - 1));
      Ratios(g, sec, n - 1) + (if v > 0 then [v] else [])
  }

  /** The middle of a sorted sequence, or the floored mean of its two middles. */
  function Middle(v: seq<int>): int
    requires v != []
  {
    if |v| % 2 == 1 then v[|v| / 2] else (v[|v| / 2 - 1] + v[|v| / 2]) / 2
  }

  function Median(vals: seq<int>): Option<int> {
    var v := Sort(IntLe, vals);
    if v == [] then None else Some(Middle(v))
  }

  /** The basis is a median: in the sorted values everything in the lower half, its end included,
      is at most the basis and everything in the upper half is at least it; and it is the floored mean of
      the two middle ones, which are one when their number is odd. */
  lemma MedianSplits(vals: seq<int>)
    requires vals != []
    ensures Median(vals).Some?
    ensures var m, v := Median(vals).value, Sort(IntLe, vals);
            && multiset(v) == multiset(vals) && |v| == |vals|
            && (forall i :: 0 <= i < (|v| + 1) / 2 ==> v[i] <= m)
            && (forall i :: |v| / 2 <= i < |v| ==> m <= v[i])
            && 2 * m <= v[(|v| - 1) / 2] + v[|v| / 2] < 2 * (m + 1)
  {
    IntOrder();
    SortLaw(IntLe, vals);
    MiddleSplits(Sort(IntLe, vals));
  }

  lemma MiddleSplits(v: seq<int>)
    requires v != [] && SortedBy(IntLe, v)
    ensures forall i :: 0 <= i < (|v| + 1) / 2 ==> v[i] <= Middle(v)
    ensures forall i :: |v| / 2 <= i < |v| ==> Middle(v) <= v[i]
    ensures 2 * Middle(v) <= v[(|v| - 1) / 2] + v[|v| / 2] < 2 * (Middle(v) + 1)
  {
    var k, m := |v|, Middle(v);
    var a, b := v[(k - 1) / 2], v[k / 2];
    assert a <= m <= b by {
      assert (k - 1) / 2 < k / 2 ==> IntLe(a, b);
    }
    forall i | 0 <= i < (k + 1) / 2
      ensures v[i] <= m
    {
      assert i < (k - 1) / 2 ==> IntLe(v[i], a);
    }
    forall i | k / 2 <= i < k
      ensures m <= v[i]
    {
      assert k / 2 < i ==> IntLe(b, v[i]);
    }
  }

  // -- the price ---------------------------------------------------------

  datatype Hold = Shape | MarkStale | NoNowcast | NoSigma | ObservedStale

  datatype LateFair =
    | Held(why: Hold)
    | Priced(pYes: int, z: int, sigma: int, basis: int, mNow: int, nObs: int)

  /** The sum of the slots of seconds `[from, upto)`, or None when one is blank. */
  function Observed(g: Grid, from: int, upto: int): Option<int>
    decreases upto - from
  {
    if upto <= from then Some(0)
    else
      var sum := Observed(g, from, upto - 1);
      if sum.None? || SlotMark(g, upto - 1) <= 0 then None else Some(sum.value + SlotMark(g, upto - 1))
  }

  function FirstSecond(expiry: int): int { expiry / SEC + 1 - SAMPLES }

  function ObservedCount(expiry: int, wall: int): int {
    var first, secD := FirstSecond(expiry), wall / SEC;
    if secD < first then 0 else Min(secD - first + 1, SAMPLES)
  }

  function FirstFuture(expiry: int, wall: int): int {
    var first, secD := FirstSecond(expiry), wall / SEC;
    if secD + 1 > first then secD + 1 else first
  }

  function VarianceOf(a: int, n: int): int {
    (a * n * n + (n * (n - 1) * (2 * n - 1) / 6) * NANO) / 3_600
  }

  function Deviation(k: int, sigma: int, mNow: int, a: int, n: int): int {
    k * sigma * mNow * P.RootI128(VarianceOf(a, n) * NANO) / 1_000_000_000_000_000_000_000
  }

  function ZOf(num: int, sd: int): int {
    if sd > 0 then Clamp(-Z_CLAMP, num * ONE / (SAMPLES * sd), Z_CLAMP)
    else if num >= 0 then Z_CLAMP
    else -Z_CLAMP
  }

  /** The holds that need no estimate: the query's shape, a stale mark, a stale perp. */
  function EarlyHold(g: Grid, strike: int, expiry: int, wall: int, k: int): Option<Hold> {
    if strike <= 0 || k <= 0 || expiry < SAMPLES * SEC then Some(Shape)
    else if wall / SEC > expiry / SEC || g.sec < wall / SEC then Some(Shape)
    else if g.mark <= 0 || g.markWall > wall || wall - g.markWall >= MARK_FRESH then Some(MarkStale)
    else if g.perp <= 0 || g.perpWall > wall || wall - g.perpWall >= PERP_FRESH then Some(NoNowcast)
    else None
  }

  function BasisAt(g: Grid, secD: int): Option<int> {
    Median(Ratios(g, secD, Min(BASIS_WINDOW, secD + 1)))
  }

  /** The price from the observed sum and the nowcast of the rest. */
  function PriceOf(phi: seq<int>, strike: int, expiry: int, wall: int, k: int,
                   sigma: int, basis: int, mNow: int, obs: int): LateFair
    requires |phi| == LATE_PHI_POINTS
  {
    var nObs := ObservedCount(expiry, wall);
    var n := SAMPLES - nObs;
    var a := FirstFuture(expiry, wall) * SEC - wall;
    var z := ZOf(obs + n * mNow - SAMPLES * strike, Deviation(k, sigma, mNow, a, n));
    Priced(PofZ(phi, z), z, sigma, basis, mNow, nObs)
  }

  function Nowcast(perp: int, basis: int): int { perp * basis / 2_000_000_000 }

  function LateFairOf(g: Grid, phi: seq<int>, strike: int, expiry: int, wall: int, k: int): LateFair
    requires |phi| == LATE_PHI_POINTS
  {
    match EarlyHold(g, strike, expiry, wall, k)
    case Some(why) => Held(why)
    case None =>
      match Sigma(g)
      case None => Held(NoSigma)
      case Some(sigma) =>
        match BasisAt(g, wall / SEC)
        case None => Held(NoNowcast)
        case Some(basis) =>
          var mNow := Nowcast(g.perp, basis);
          if mNow <= 0 || mNow > LateModel.I64_MAX then Held(Shape)
          else
            var first := FirstSecond(expiry);
            match Observed(g, first, first + ObservedCount(expiry, wall))
            case None => Held(ObservedStale)
            case Some(obs) => PriceOf(phi, strike, expiry, wall, k, sigma, basis, mNow, obs)
  }

  // -- the partition and the variance ------------------------------------

  /** The observed and the future seconds partition the 60 settlement seconds, and the first
      future sample lies strictly ahead. */
  lemma SamplesPartition(expiry: int, wall: int)
    requires wall / SEC <= expiry / SEC
    ensures var first, nObs, fut := FirstSecond(expiry), ObservedCount(expiry, wall), FirstFuture(expiry, wall);
            && 0 <= nObs <= SAMPLES
            && fut == first + nObs
            && fut + (SAMPLES - nObs) == expiry / SEC + 1
            && 0 < fut * SEC - wall
            && (forall s :: first <= s < fut <==> first <= s <= expiry / SEC && s * SEC <= wall)
            && (nObs == SAMPLES <==> wall / SEC == expiry / SEC)
  {
  }

  /** The lead time of the `i`-th future sample, one second apart from `a` on. */
  function Lead(a: int, i: int): int { a + i * NANO }

  /** Sum over `j < n` of the covariance `min(lead_i, lead_j)` of a driftless walk. */
  function RowSum(a: int, i: int, n: nat): int {
    if n == 0 then 0 else RowSum(a, i, n - 1) + Min(Lead(a, i), Lead(a, n - 1))
  }

  function CovarianceSum(a: int, m: nat, n: nat): int {
    if m == 0 then 0 else CovarianceSum(a, m - 1, n) + RowSum(a, m - 1, n)
  }

  function SumOfSquares(n: nat): int {
    if n == 0 then 0 else SumOfSquares(n - 1) + (n - 1) * (n - 1)
  }

  lemma NextPyramid(k: int, n: int)
    requires n == k + 1
    ensures n * (n - 1) * (2 * n - 1) == k * (k - 1) * (2 * k - 1) + 6 * (k * k)
  {
    var q := k * k;
    assert k * (k - 1) == q - k && n * (n - 1) == q + k;
    assert (q + k) * (2 * k + 1) == (q - k) * (2 * k - 1) + 6 * q;
  }

  lemma {:induction false} SquarePyramid(n: nat)
    ensures n * (n - 1) * (2 * n - 1) == 6 * SumOfSquares(n)
    ensures n * (n - 1) * (2 * n - 1) / 6 == SumOfSquares(n)
  {
    if n > 0 {
      SquarePyramid(n - 1);
      NextPyramid(n - 1, n);
    }
  }

  lemma {:induction false} RowOfLater(a: int, i: int, n: nat)
    requires n <= i
    ensures 2 * RowSum(a, i, n) == 2 * (n * a) + n * (n - 1) * NANO
  {
    if n > 0 {
      RowOfLater(a, i, n - 1);
      assert Min(Lead(a, i), Lead(a, n - 1)) == Lead(a, n - 1);
      assert n * a == (n - 1) * a + a;
      assert n * (n - 1) * NANO == (n - 1) * (n - 2) * NANO + 2 * ((n - 1) * NANO);
    }
  }

  /** Adding the `n`-th column to `m <= n` rows adds the first `m` leads once. */
  lemma {:induction false} ColumnAdds(a: int, m: nat, n: nat)
    requires m <= n
    ensures CovarianceSum(a, m, n + 1) == CovarianceSum(a, m, n) + RowSum(a, n, m)
  {
    if m > 0 {
      ColumnAdds(a, m - 1, n);
      assert RowSum(a, m - 1, n + 1) == RowSum(a, m - 1, n) + Lead(a, m - 1);
      assert RowSum(a, n, m) == RowSum(a, n, m - 1) + Lead(a, m - 1);
    }
  }

  /** The closed form of the variance term is the double sum of covariances of the future samples. */
  lemma {:induction false} VarianceIsCovarianceSum(a: int, n: nat)
    ensures CovarianceSum(a, n, n) == a * n * n + SumOfSquares(n) * NANO
  {
    if n > 0 {
      var k := n - 1;
      VarianceIsCovarianceSum(a, k);
      ColumnAdds(a, k, k);
      RowOfLater(a, k, k);
      assert RowSum(a, k, n) == RowSum(a, k, k) + Lead(a, k);
      assert CovarianceSum(a, n, n) == CovarianceSum(a, k, n) + RowSum(a, k, n);
      assert CovarianceSum(a, n, n) == CovarianceSum(a, k, k) + 2 * RowSum(a, k, k) + Lead(a, k);
      assert a * n * n == a * k * k + 2 * (k * a) + a;
      assert k * (k - 1) * NANO + k * NANO == (k * k) * NANO;
      assert SumOfSquares(n) * NANO == SumOfSquares(k) * NANO + (k * k) * NANO;
    }
  }

  /** The variance the pricer takes is the average's: the covariances' sum over 60 squared. */
  lemma VarianceTermExact(a: int, n: nat)
    ensures VarianceOf(a, n) == CovarianceSum(a, n, n) / (SAMPLES * SAMPLES)
  {
    SquarePyramid(n);
    VarianceIsCovarianceSum(a, n);
  }

  // -- monotone in the strike, settled at the end ------------------------

  lemma ZOfMonotone(a: int, b: int, sd: int)
    requires a <= b
    ensures -Z_CLAMP <= ZOf(a, sd) <= ZOf(b, sd) <= Z_CLAMP
  {
    if sd > 0 {
      DivMono(a * ONE, b * ONE, SAMPLES * sd);
    }
  }

  /** A higher strike is priced or held exactly as a lower one, and never priced above it. */
  lemma PriceFallsInStrike(g: Grid, phi: seq<int>, low: int, high: int, expiry: int, wall: int, k: int)
    requires |phi| == LATE_PHI_POINTS && P.PhiLaw(phi) && 0 < low <= high
    ensures var a, b := LateFairOf(g, phi, low, expiry, wall, k), LateFairOf(g, phi, high, expiry, wall, k);
            && (a.Held? || b.Held? ==> a == b)
            && (a.Priced? ==> 0 <= b.pYes <= a.pYes <= ONE && b.z <= a.z)
  {
    var a, b := LateFairOf(g, phi, low, expiry, wall, k), LateFairOf(g, phi, high, expiry, wall, k);
    if a.Priced? {
      var first := FirstSecond(expiry);
      var n := SAMPLES - a.nObs;
      var obs := Observed(g, first, first + a.nObs).value;
      var sd := Deviation(k, a.sigma, a.mNow, FirstFuture(expiry, wall) * SEC - wall, n);
      ZOfMonotone(obs + n * a.mNow - SAMPLES * high, obs + n * a.mNow - SAMPLES * low, sd);
      PofZMonotone(phi, b.z, a.z);
    }
  }

  lemma NothingLeftUncertain(k: int, sigma: int, mNow: int, a: int)
    ensures Deviation(k, sigma, mNow, a, 0) == 0
  {
    assert VarianceOf(a, 0) == 0;
    assert k * sigma * mNow * 0 == 0;
  }

  /** Once every settlement second is observed the price is the table's end, on the side of
      "the observed marks reach 60 strikes". */
  lemma AllObservedSettles(g: Grid, phi: seq<int>, strike: int, expiry: int, wall: int, k: int)
    requires |phi| == LATE_PHI_POINTS && LateFairOf(g, phi, strike, expiry, wall, k).Priced?
    requires wall / SEC == expiry / SEC
    ensures var f, first := LateFairOf(g, phi, strike, expiry, wall, k), FirstSecond(expiry);
            && f.nObs == SAMPLES
            && Observed(g, first, first + SAMPLES).Some?
            && f.pYes == if Observed(g, first, first + SAMPLES).value >= SAMPLES * strike
                         then phi[LATE_PHI_POINTS - 1] else ONE - phi[LATE_PHI_POINTS - 1]
  {
    SamplesPartition(expiry, wall);
    var f := LateFairOf(g, phi, strike, expiry, wall, k);
    NothingLeftUncertain(k, f.sigma, f.mNow, FirstFuture(expiry, wall) * SEC - wall);
  }

  // -- time-ordered use --------------------------------------------------

  lemma SlotIsOwn(g: Grid, s: int)
    ensures Owner(g.sec, s % SHORT_RING, SHORT_RING) == s <==> g.sec - SHORT_RING < s <= g.sec
    ensures g.sec - SHORT_RING < s <= g.sec ==>
              SlotMark(g, s) == CellAt(g.log, s).mark && SlotRatio(g, s) == CellAt(g.log, s).ratio
  {
    OwnerOfSlot(g.sec, s, SHORT_RING);
  }

  /** A query in order leaves the frontier exactly at its own second, unless nothing was filled. */
  lemma QueryLandsOnFrontier(h: seq<Event>, wall: int)
    requires Chronological(h + [Query(wall)])
    ensures var g := Run(true, h + [Query(wall)]); 0 <= g.sec && (g.sec > 0 ==> g.sec == wall / SEC)
  {
    var h1 := h + [Query(wall)];
    assert h1[..|h1| - 1] == h;
    forall i | 0 <= i < |h|
      ensures h[i].wall <= wall
    {
      assert h1[i] == h[i];
    }
    WallsBounded(true, h, wall);
    AdvanceShape(true, Run(true, h), wall / SEC);
    var g := Run(true, h);
    if g.sec > 0 {
      DivAtLeast(wall, SEC, g.sec);
    }
  }

  /** The sum of the samples of seconds `[from, upto)`, each as the history stood when it was filled. */
  ghost function FilledSum(h: seq<Event>, from: int, upto: int): int
    decreases upto - from
  {
    if upto <= from then 0 else FilledSum(h, from, upto - 1) + ReferenceAsFilled(h, upto - 1).mark
  }

  /** The sum of the samples of seconds `[from, upto)` by the whole history. */
  ghost function SampleSum(h: seq<Event>, from: int, upto: int): int
    decreases upto - from
  {
    if upto <= from then 0 else SampleSum(h, from, upto - 1) + SampleAt(h, upto - 1)
  }

  lemma {:induction false} ObservedIsFilledSum(h: seq<Event>, g: Grid, from: int, upto: int)
    requires forall s :: from <= s < upto ==> SlotMark(g, s) == ReferenceAsFilled(h, s).mark
    requires Observed(g, from, upto).Some?
    ensures Observed(g, from, upto).value == FilledSum(h, from, upto)
    ensures forall s :: from <= s < upto ==> 0 < ReferenceAsFilled(h, s).mark
    decreases upto - from
  {
    if from < upto {
      ObservedIsFilledSum(h, g, from, upto - 1);
    }
  }

  /** A mark that came too late for a second of `[from, upto)`, if any, repeats what it held. */
  ghost predicate AllRepeat(h: seq<Event>, from: int, upto: int) {
    forall s :: from <= s < upto ==> MarkRepeats(h, s)
  }

  ghost predicate MarkRepeats(h: seq<Event>, s: int) {
    LateMark(h, s).Some? ==> LateMark(h, s).value == ReferenceAsFilled(h, s).mark
  }

  /** Then the two sums are one. */
  lemma {:induction false} FilledSumIsSampleSum(h: seq<Event>, from: int, upto: int)
    requires Chronological(h) && AllRepeat(h, from, upto)
    requires forall s :: from <= s < upto ==> 0 < ReferenceAsFilled(h, s).mark
    ensures FilledSum(h, from, upto) == SampleSum(h, from, upto)
    decreases upto - from
  {
    if from < upto {
      FilledSumIsSampleSum(h, from, upto - 1);
      assert MarkRepeats(h, upto - 1) && 0 < ReferenceAsFilled(h, upto - 1).mark;
      LateQuotes(h, upto - 1);
    }
  }

  /** What a price says about its grid: something was filled, the query is no later than the
      expiry, and no observed second was blank. */
  lemma PricedFacts(g: Grid, phi: seq<int>, strike: int, expiry: int, wall: int, k: int)
    requires |phi| == LATE_PHI_POINTS && LateFairOf(g, phi, strike, expiry, wall, k).Priced?
    ensures g.log != map[] && wall / SEC <= expiry / SEC
    ensures Observed(g, FirstSecond(expiry), FirstSecond(expiry) + ObservedCount(expiry, wall)).Some?
  {
    NoReturnsInEmptyLog(g.log, g.sec - SIGMA_WINDOW, g.sec);
  }

  lemma NoReturnsInEmptyLog(log: map<int, Cell>, lo: int, hi: int)
    ensures log == map[] ==> CountR(log, lo, hi) == 0
  {
    if log == map[] {
      StatsOfBlank(log, lo, hi);
    }
  }

  /** The last 64 slots of a run in time order belong to their own seconds. They hold the samples as the
      history stood when they were filled, and by the whole history exactly where no quote came too late. */
  lemma SlotsAreHistory(h: seq<Event>, s: int)
    requires Chronological(h) && Run(true, h).sec - SHORT_RING < s <= Run(true, h).sec
    ensures var g := Run(true, h);
            && Owner(g.sec, s % SHORT_RING, SHORT_RING) == s
            && Cell(SlotMark(g, s), SlotRatio(g, s)) == ReferenceAsFilled(h, s)
            && (Cell(SlotMark(g, s), SlotRatio(g, s)) == Reference(h, s) <==> Undisturbed(h, s))
  {
    GridMatchesHistory(h, s);
    SlotIsOwn(Run(true, h), s);
  }

  /** The last 64 slots of a run in time order belong to their own seconds and hold what filling every
      second one by one leaves there. */
  lemma SlotsAreNaive(h: seq<Event>, s: int)
    requires Chronological(h) && Run(true, h).sec - SHORT_RING < s <= Run(true, h).sec
    ensures var g := Run(true, h);
            && Owner(g.sec, s % SHORT_RING, SHORT_RING) == s
            && Cell(SlotMark(g, s), SlotRatio(g, s)) == CellAt(Run(false, h).log, s)
  {
    GapPathAgrees(h);
    SlotIsOwn(Run(true, h), s);
  }

  /** The seconds a priced call reads lie in the last 64: the basis window and the observed samples. */
  lemma PricedReads(h: seq<Event>, phi: seq<int>, strike: int, expiry: int, wall: int, k: int)
    requires |phi| == LATE_PHI_POINTS && Chronological(h + [Query(wall)])
    requires LateFairOf(Run(true, h + [Query(wall)]), phi, strike, expiry, wall, k).Priced?
    ensures var g := Run(true, h + [Query(wall)]);
            var first, nObs := FirstSecond(expiry), ObservedCount(expiry, wall);
            && g.sec == wall / SEC
            && (nObs > 0 ==> g.sec - SHORT_RING < first && first + nObs - 1 <= g.sec)
  {
    var h1 := h + [Query(wall)];
    PricedFacts(Run(true, h1), phi, strike, expiry, wall, k);
    EmptyUntilStarted(true, h1);
    QueryLandsOnFrontier(h, wall);
    SamplesPartition(expiry, wall);
  }

  /** In time-ordered use every slot a priced call reads belongs to the second asked for, and holds
      what filling every second one by one leaves there. */
  lemma ReadsAreOwn(h: seq<Event>, phi: seq<int>, strike: int, expiry: int, wall: int, k: int, s: int)
    requires |phi| == LATE_PHI_POINTS && Chronological(h + [Query(wall)])
    requires LateFairOf(Run(true, h + [Query(wall)]), phi, strike, expiry, wall, k).Priced?
    requires || wall / SEC - BASIS_WINDOW < s <= wall / SEC
             || FirstSecond(expiry) <= s < FirstSecond(expiry) + ObservedCount(expiry, wall)
    ensures var h1 := h + [Query(wall)];
            var g := Run(true, h1);
            && Owner(g.sec, s % SHORT_RING, SHORT_RING) == s
            && Cell(SlotMark(g, s), SlotRatio(g, s)) == CellAt(Run(false, h1).log, s)
  {
    PricedReads(h, phi, strike, expiry, wall, k);
    SlotsAreNaive(h + [Query(wall)], s);
  }

  /** The observed part of a price is the sum of the history's samples over the elapsed settlement
      seconds, each as the history stood when it was filled; by the whole history where no mark came too
      late to change one. */
  lemma ObservedIsHistory(h: seq<Event>, phi: seq<int>, strike: int, expiry: int, wall: int, k: int)
    requires |phi| == LATE_PHI_POINTS && Chronological(h + [Query(wall)])
    requires LateFairOf(Run(true, h + [Query(wall)]), phi, strike, expiry, wall, k).Priced?
    ensures var h1 := h + [Query(wall)];
            var first, nObs := FirstSecond(expiry), ObservedCount(expiry, wall);
            && Observed(Run(true, h1), first, first + nObs) == Some(FilledSum(h1, first, first + nObs))
            && (AllRepeat(h1, first, first + nObs) ==>
                  Observed(Run(true, h1), first, first + nObs) == Some(SampleSum(h1, first, first + nObs)))
  {
    var h1 := h + [Query(wall)];
    PricedReads(h, phi, strike, expiry, wall, k);
    PricedFacts(Run(true, h1), phi, strike, expiry, wall, k);
    SumOfSlots(h1, FirstSecond(expiry), FirstSecond(expiry) + ObservedCount(expiry, wall));
  }

  lemma SumOfSlots(h: seq<Event>, from: int, upto: int)
    requires Chronological(h) && Observed(Run(true, h), from, upto).Some?
    requires from < upto ==> Run(true, h).sec - SHORT_RING < from && upto - 1 <= Run(true, h).sec
    ensures Observed(Run(true, h), from, upto) == Some(FilledSum(h, from, upto))
    ensures AllRepeat(h, from, upto) ==> Observed(Run(true, h), from, upto) == Some(SampleSum(h, from, upto))
  {
    var g := Run(true, h);
    forall s | from <= s < upto
      ensures SlotMark(g, s) == ReferenceAsFilled(h, s).mark
    {
      SlotsAreHistory(h, s);
    }
    ObservedIsFilledSum(h, g, from, upto);
    if AllRepeat(h, from, upto) {
      FilledSumIsSampleSum(h, from, upto);
    }
  }

  // -- on the rings ------------------------------------------------------

  method SigmaOf(grid: LateGrid) returns (r: Option<int>)
    requires grid.Valid()
    ensures r == Sigma(grid.View())
  {
    grid.Totals();
    if grid.nR < SIGMA_MIN_OBS {
      return None;
    }
    return Some(Min(P.RootI128(grid.sumR2 / grid.nR), SIGMA_MAX));
  }

  /** What a slot of the rings reads as. */
  lemma SlotReads(grid: LateGrid, s: int)
    requires grid.Valid()
    ensures grid.mark.Length == grid.ratio.Length == SHORT_RING
    ensures grid.mark[s % SHORT_RING] == SlotMark(grid.View(), s)
    ensures grid.ratio[s % SHORT_RING] == SlotRatio(grid.View(), s)
  {
    grid.ShortSlots();
  }

  method CollectRatios(grid: LateGrid, sec: int) returns (vals: seq<int>)
    requires grid.Valid()
    ensures vals == Ratios(grid.View(), sec, Min(BASIS_WINDOW, sec + 1))
  {
    ghost var g := grid.View();
    vals := [];
    var back := 0;
    while back < BASIS_WINDOW && back <= sec
      invariant 0 <= back <= BASIS_WINDOW && (back <= sec + 1 || back == 0)
      invariant vals == Ratios(g, sec, back)
    {
      SlotReads(grid, sec - back);
      var v := grid.ratio[(sec - back) % SHORT_RING];
      if v > 0 {
        vals := vals + [v];
      }
      back := back + 1;
    }
  }

  method MedianOf(vals: seq<int>) returns (r: Option<int>)
    ensures r == Median(vals)
  {
    var sorted := Sort(IntLe, vals);
    var k := |sorted|;
    if k == 0 {
      return None;
    }
    if k % 2 == 1 {
      return Some(sorted[k / 2]);
    }
    return Some((sorted[k / 2 - 1] + sorted[k / 2]) / 2);
  }

  /** The observed settlement seconds, summed slot by slot; None at the first blank one. */
  method ObservedOf(grid: LateGrid, first: int, nObs: int) returns (r: Option<int>)
    requires grid.Valid()
    ensures r == Observed(grid.View(), first, first + nObs)
  {
    var obs := 0;
    var s := first;
    while s < first + nObs
      invariant first <= s && (s <= first + nObs || s == first)
      invariant Observed(grid.View(), first, s) == Some(obs)
    {
      SlotReads(grid, s);
      var v := grid.mark[s % SHORT_RING];
      if v <= 0 {
        BlankStops(grid.View(), first, s + 1, first + nObs);
        return None;
      }
      obs := obs + v;
      s := s + 1;
    }
    return Some(obs);
  }

  lemma {:induction false} BlankStops(g: Grid, from: int, mid: int, upto: int)
    requires from <= mid <= upto && Observed(g, from, mid).None?
    ensures Observed(g, from, upto).None?
    decreases upto - mid
  {
    if mid < upto {
      BlankStops(g, from, mid, upto - 1);
    }
  }

  method EarlyHoldOf(grid: LateGrid, strike: int, expiry: int, wall: int, k: int) returns (r: Option<Hold>)
    ensures r == EarlyHold(grid.View(), strike, expiry, wall, k)
  {
    if strike <= 0 || k <= 0 || expiry < SAMPLES * SEC {
      return Some(Shape);
    }
    var secD, last := wall / SEC, expiry / SEC;
    if secD > last || grid.sec < secD {
      return Some(Shape);
    }
    if grid.curMark <= 0 || grid.curMarkWall > wall || wall - grid.curMarkWall >= MARK_FRESH {
      return Some(MarkStale);
    }
    if grid.curPerp <= 0 || grid.curPerpWall > wall || wall - grid.curPerpWall >= PERP_FRESH {
      return Some(NoNowcast);
    }
    return None;
  }

  /** The late price as the source computes it, over the rings. */
  method LateFairMethod(grid: LateGrid, phi: seq<int>, strike: int, expiry: int, wall: int, k: int)
    returns (r: LateFair)
    requires grid.Valid() && |phi| == LATE_PHI_POINTS
    ensures r == LateFairOf(grid.View(), phi, strike, expiry, wall, k)
  {
    var early := EarlyHoldOf(grid, strike, expiry, wall, k);
    if early.Some? {
      return Held(early.value);
    }
    var sigma := SigmaOf(grid);
    if sigma.None? {
      return Held(NoSigma);
    }
    var vals := CollectRatios(grid, wall / SEC);
    var basis := MedianOf(vals);
    if basis.None? {
      return Held(NoNowcast);
    }
    var mNow := Nowcast(grid.curPerp, basis.value);
    if mNow <= 0 || mNow > LateModel.I64_MAX {
      return Held(Shape);
    }
    var first, nObs := FirstSecond(expiry), ObservedCount(expiry, wall);
    var obs := ObservedOf(grid, first, nObs);
    if obs.None? {
      return Held(ObservedStale);
    }
    r := PriceOf(phi, strike, expiry, wall, k, sigma.value, basis.value, mNow, obs.value);
  }

  /** The last 64 slots hold the cells of a log. */
  ghost predicate SlotsHold(mark: seq<int>, ratio: seq<int>, sec: int, log: map<int, Cell>) {
    forall x: Seal {:trigger Opened(x)} ::
      && |mark| == SHORT_RING && |ratio| == SHORT_RING
      && forall s :: sec - SHORT_RING < s <= sec ==>
                       Cell(mark[s % SHORT_RING], ratio[s % SHORT_RING]) == CellAt(log, s)
  }

  /** The last 64 slots hold the samples of a history as it stood when they were filled, and by all of it
      exactly where no quote came too late. */
  ghost predicate SlotsSample(mark: seq<int>, ratio: seq<int>, sec: int, h: seq<Event>) {
    forall x: Seal {:trigger Opened(x)} ::
      && |mark| == SHORT_RING && |ratio| == SHORT_RING
      && forall s :: sec - SHORT_RING < s <= sec ==>
                       var cell := Cell(mark[s % SHORT_RING], ratio[s % SHORT_RING]);
                       cell == ReferenceAsFilled(h, s) && (cell == Reference(h, s) <==> Undisturbed(h, s))
  }

  /** Only slots of seconds in the sigma window are marked valid. */
  ghost predicate ValidInWindow(ok: seq<bool>, at: int) {
    forall x: Seal {:trigger Opened(x)} ::
      |ok| == R2_RING && forall i :: 0 <= i < R2_RING && ok[i] ==> at - SIGMA_WINDOW < Owner(at, i, R2_RING)
  }

  lemma ShortHoldsOwn(mark: seq<int>, ratio: seq<int>, log: map<int, Cell>, sec: int)
    requires ShortHolds(mark, ratio, log, sec)
    ensures SlotsHold(mark, ratio, sec, log)
  {
    forall s | sec - SHORT_RING < s <= sec
      ensures Cell(mark[s % SHORT_RING], ratio[s % SHORT_RING]) == CellAt(log, s)
    {
      OwnerOfSlot(sec, s, SHORT_RING);
    }
  }

  lemma ShortHoldsNaive(mark: seq<int>, ratio: seq<int>, h: seq<Event>)
    requires Chronological(h) && ShortHolds(mark, ratio, Run(true, h).log, Run(true, h).sec)
    ensures SlotsHold(mark, ratio, Run(true, h).sec, Run(false, h).log)
  {
    assert Opened(Seal);
    GapPathAgrees(h);
    ShortHoldsOwn(mark, ratio, Run(true, h).log, Run(true, h).sec);
  }

  lemma ShortHoldsReference(mark: seq<int>, ratio: seq<int>, h: seq<Event>)
    requires Chronological(h) && ShortHolds(mark, ratio, Run(true, h).log, Run(true, h).sec)
    ensures SlotsSample(mark, ratio, Run(true, h).sec, h)
  {
    assert Opened(Seal);
    var g := Run(true, h);
    ShortHoldsOwn(mark, ratio, g.log, g.sec);
    forall s | g.sec - SHORT_RING < s <= g.sec
      ensures CellAt(g.log, s) == ReferenceAsFilled(h, s)
      ensures CellAt(g.log, s) == Reference(h, s) <==> Undisturbed(h, s)
    {
      GridMatchesHistory(h, s);
    }
  }

  lemma ValidSlotsInWindow(ok: seq<bool>, sq: seq<int>, log: map<int, Cell>, at: int)
    requires RingHolds(ok, sq, log, at)
    ensures ValidInWindow(ok, at)
  {
    forall i | 0 <= i < R2_RING && ok[i]
      ensures at - SIGMA_WINDOW < Owner(at, i, R2_RING)
    {
      assert SlotHolds(ok[i], sq[i], log, at, Owner(at, i, R2_RING));
    }
  }

  /** The rings themselves after any history in time order: the last 64 slots hold what filling every
      second leaves. */
  lemma RingsAreNaive(grid: LateGrid, h: seq<Event>)
    requires grid.Valid() && Chronological(h) && grid.View() == Run(true, h)
    ensures SlotsHold(grid.mark[..], grid.ratio[..], grid.sec, Run(false, h).log)
  {
    grid.ShortSlots();
    ShortHoldsNaive(grid.mark[..], grid.ratio[..], h);
  }

  /** The totals are that fill's, and a slot is valid only for a second of the window. */
  lemma TotalsAreNaive(grid: LateGrid, h: seq<Event>)
    requires grid.Valid() && Chronological(h) && grid.View() == Run(true, h)
    ensures ValidInWindow(grid.rOk[..], grid.sec)
    ensures var n := Run(false, h);
            && grid.sec == n.sec
            && grid.sumR2 == SumR2(n.log, n.sec - SIGMA_WINDOW, n.sec)
            && grid.nR == CountR(n.log, n.sec - SIGMA_WINDOW, n.sec)
  {
    grid.Totals();
    ValidSlotsInWindow(grid.rOk[..], grid.r2[..], grid.log, grid.sec);
    GapPathKeepsStats(h);
  }

  /** That is the history's samples as it stood when they were filled, and by all of it exactly where no
      quote came too late. */
  lemma RingsHoldHistory(grid: LateGrid, h: seq<Event>)
    requires grid.Valid() && Chronological(h) && grid.View() == Run(true, h)
    ensures SlotsSample(grid.mark[..], grid.ratio[..], grid.sec, h)
  {
    grid.ShortSlots();
    ShortHoldsReference(grid.mark[..], grid.ratio[..], h);
  }
}
