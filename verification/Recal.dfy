/** The table laws the pricer relies on: the recalibration table of one slope and the
    check a Phi table must pass, with the symmetry of the recalibrated price. */
module RecalTables {
  import opened Options
  import opened Fixed
  import opened Pricer

  const GRID_TICK: int := 100
  const PHI_LAST_MIN: int := 980_000
  const SLOPE_MAX: int := 1032

  /** `num / den` rounded half away from zero. */
  function RoundHalfAway(num: int, den: int): int
    requires 0 < den
  {
    if num >= 0 then (2 * num + den) / (2 * den) else -((-2 * num + den) / (2 * den))
  }

  /** Away from zero is odd-symmetric and a nearest integer: within half a unit. */
  lemma RoundHalfAwayLaw(num: int, den: int)
    requires 0 < den
    ensures RoundHalfAway(-num, den) == -RoundHalfAway(num, den)
    ensures 2 * num - den <= 2 * den * RoundHalfAway(num, den) <= 2 * num + den
    ensures 0 <= num ==> 2 * num - den < 2 * den * RoundHalfAway(num, den)
  {
    var n := if num >= 0 then num else -num;
    var q := (2 * n + den) / (2 * den);
    assert 2 * n + den == q * (2 * den) + (2 * n + den) % (2 * den);
    assert q * (2 * den) == 2 * den * q;
    assert 2 * den * -q == -(2 * den * q);
    if num == 0 {
      DivUnique(den, 2 * den, 0);
    }
  }

  lemma RoundHalfAwayMonotone(a: int, b: int, den: int)
    requires a <= b && 0 < den
    ensures RoundHalfAway(a, den) <= RoundHalfAway(b, den)
  {
    if a >= 0 {
      DivMono(2 * a + den, 2 * b + den, 2 * den);
    } else if b < 0 {
      DivMono(-2 * b + den, -2 * a + den, 2 * den);
    } else {
      DivAtLeast(-2 * a + den, 2 * den, 0);
      DivAtLeast(2 * b + den, 2 * den, 0);
    }
  }

  /** The straight line of slope `slope / 1000` through `(1/2, 1/2)` at bucket `k`. */
  function Line(slope: int, k: int): int {
    HALF + RoundHalfAway((k * RECAL_STEP - HALF) * slope, 1_000)
  }

  /** The method's loop body: certain only at the two ends, one tick inside elsewhere. */
  function Bucket(slope: int, k: int): int {
    if k == 0 then 0
    else if k == RECAL_POINTS - 1 then ONE
    else Clamp(GRID_TICK, Line(slope, k), ONE - GRID_TICK)
  }

  ghost predicate Symmetric(t: seq<int>) {
    |t| == RECAL_POINTS && forall k :: 0 <= k < RECAL_POINTS ==> t[k] + t[RECAL_POINTS - 1 - k] == ONE
  }

  lemma LineMonotone(slope: int, j: int, k: int)
    requires 0 < slope && j <= k
    ensures Line(slope, j) <= Line(slope, k)
  {
    MulMono(j * RECAL_STEP - HALF, k * RECAL_STEP - HALF, slope);
    RoundHalfAwayMonotone((j * RECAL_STEP - HALF) * slope, (k * RECAL_STEP - HALF) * slope, 1_000);
  }

  lemma LineSymmetric(slope: int, k: int)
    ensures Line(slope, k) + Line(slope, 64 - k) == ONE
  {
    var n := (k * RECAL_STEP - HALF) * slope;
    assert ((64 - k) * RECAL_STEP - HALF) * slope == -n;
    RoundHalfAwayLaw(n, 1_000);
  }

  /** An accepted slope keeps every interior bucket strictly off the clamp. */
  lemma InteriorUnclamped(slope: int, k: int)
    requires 0 < slope <= SLOPE_MAX && 0 < k < 64
    ensures GRID_TICK < Line(slope, k) < ONE - GRID_TICK
    ensures Bucket(slope, k) == Line(slope, k)
  {
    LineMonotone(slope, 1, k);
    LineMonotone(slope, k, 63);
    LineSymmetric(slope, 1);
    assert Line(slope, 63) == HALF + (2 * 484_375 * slope + 1_000) / 2_000;
  }

  lemma BucketMonotone(slope: int, j: int, k: int)
    requires 0 < slope <= SLOPE_MAX && 0 <= j <= k <= 64
    ensures Bucket(slope, j) <= Bucket(slope, k)
  {
    if 0 < j < 64 { InteriorUnclamped(slope, j); }
    if 0 < k < 64 { InteriorUnclamped(slope, k); }
    LineMonotone(slope, j, k);
  }

  lemma BucketSymmetric(slope: int, k: int)
    requires 0 < slope <= SLOPE_MAX && 0 <= k <= 64
    ensures Bucket(slope, k) + Bucket(slope, 64 - k) == ONE
  {
    if 0 < k < 64 {
      InteriorUnclamped(slope, k);
      InteriorUnclamped(slope, 64 - k);
      LineSymmetric(slope, k);
    }
  }

  /** Accepts exactly the slopes 1..1032; an accepted table is monotone, symmetric about one
      half, certain only at its ends, and is the unclamped line at every interior bucket. */
  method RecalTable(slope: int) returns (r: Option<seq<int>>)
    ensures r.Some? <==> 1 <= slope <= SLOPE_MAX
    ensures r.Some? ==>
              && Symmetric(r.value) && Monotone(r.value) && Within(r.value, 0, ONE)
              && (forall k :: 0 < k < 64 ==>
                    r.value[k] == Line(slope, k) && GRID_TICK < r.value[k] < ONE - GRID_TICK)
  {
    if slope <= 0 {
      return None;
    }
    var top := HALF + RoundHalfAway((63 * RECAL_STEP - HALF) * slope, 1_000);
    if top > ONE {
      return None;
    }
    var out: seq<int> := [];
    var k := 0;
    while k < RECAL_POINTS
      invariant 0 <= k <= RECAL_POINTS && |out| == k
      invariant forall i :: 0 <= i < k ==> out[i] == Bucket(slope, i)
    {
      var p := k * RECAL_STEP;
      var v := HALF + RoundHalfAway((p - HALF) * slope, 1_000);
      if k == 0 {
        v := 0;
      } else if k == RECAL_POINTS - 1 {
        v := ONE;
      } else {
        v := Clamp(GRID_TICK, v, ONE - GRID_TICK);
      }
      out := out + [v];
      k := k + 1;
    }
    TableLaw(slope, out);
    r := Some(out);
  }

  lemma TableLaw(slope: int, t: seq<int>)
    requires 0 < slope <= SLOPE_MAX && |t| == RECAL_POINTS
    requires forall i :: 0 <= i < RECAL_POINTS ==> t[i] == Bucket(slope, i)
    ensures Symmetric(t) && Monotone(t) && Within(t, 0, ONE)
    ensures forall k :: 0 < k < 64 ==> t[k] == Line(slope, k) && GRID_TICK < t[k] < ONE - GRID_TICK
  {
    forall k | 0 < k < 64
      ensures t[k] == Line(slope, k) && GRID_TICK < t[k] < ONE - GRID_TICK
    {
      InteriorUnclamped(slope, k);
    }
    forall k | 0 <= k < RECAL_POINTS
      ensures t[k] + t[RECAL_POINTS - 1 - k] == ONE
    {
      BucketSymmetric(slope, k);
    }
    forall i, j | 0 <= i <= j < |t|
      ensures t[i] <= t[j]
    {
      BucketMonotone(slope, i, j);
    }
    assert t[0] == 0 && t[64] == ONE;
  }

  /** The Phi-table check accepts exactly the tables the pricer's laws ask for. */
  method ValidatePhiLut(table: seq<int>) returns (ok: bool)
    ensures ok <==> |table| == PHI_POINTS && PhiLaw(table) && table[|table| - 1] >= PHI_LAST_MIN
  {
    var n := |table|;
    if n != PHI_POINTS {
      return false;
    }
    if table[0] != HALF {
      return false;
    }
    var i := 0;
    while i < n
      invariant 0 <= i <= n
      invariant forall k :: 0 <= k < i ==> 0 <= table[k] <= ONE
      invariant forall j, k :: 0 <= j <= k < i ==> table[j] <= table[k]
    {
      var v := table[i];
      if v < 0 || ONE < v {
        return false;
      }
      if i > 0 && v < table[i - 1] {
        return false;
      }
      i := i + 1;
    }
    return table[n - 1] >= PHI_LAST_MIN;
  }

  // -- Yes and No --------------------------------------------------------

  lemma CellMirror(rise: int, frac: int, step: int)
    requires 0 < step
    ensures var a, b := rise * frac / step, rise * (step - frac) / step;
            rise - 1 <= a + b <= rise && (a + b == rise <==> rise * frac % step == 0)
  {
    var n := rise * frac;
    var a := n / step;
    assert n == a * step + n % step;
    assert rise * (step - frac) == rise * step - n;
    assert (rise - a) * step == rise * step - a * step;
    if n % step == 0 {
      DivUnique(rise * step - n, step, rise - a);
    } else {
      assert (rise - a - 1) * step == (rise - a) * step - step;
      DivUnique(rise * step - n, step, rise - a - 1);
    }
  }

  /** The rise of the table's cell under `p`, times the distance into it. */
  function CellLoad(t: seq<int>, p: int): int
    requires |t| == RECAL_POINTS && 0 <= p <= ONE
  {
    var idx := p / RECAL_STEP;
    if idx >= 64 then 0 else (t[idx + 1] - t[idx]) * (p - idx * RECAL_STEP)
  }

  /** On a symmetric table the interpolated prices of `p` and `1 - p` sum to one, or to exactly
      one unit less; the unit is lost exactly when the interpolation does not divide out. */
  lemma ComplementsSum(t: seq<int>, p: int)
    requires Symmetric(t) && 0 <= p <= ONE
    ensures var s := Interp(t, RECAL_STEP, p) + Interp(t, RECAL_STEP, ONE - p);
            ONE - 1 <= s <= ONE && (s == ONE <==> CellLoad(t, p) % RECAL_STEP == 0)
  {
    var idx := p / RECAL_STEP;
    var frac := p - idx * RECAL_STEP;
    MirrorCell(p);
    if frac == 0 {
      assert t[idx] + t[64 - idx] == ONE;
    } else {
      assert t[idx] + t[64 - idx] == ONE && t[idx + 1] + t[63 - idx] == ONE;
      var rise := t[idx + 1] - t[idx];
      assert t[64 - idx] - t[63 - idx] == rise;
      CellMirror(rise, frac, RECAL_STEP);
    }
  }

  /** Where `1 - p` falls in the table. */
  lemma MirrorCell(p: int)
    requires 0 <= p <= ONE
    ensures var idx := p / RECAL_STEP;
            var frac := p - idx * RECAL_STEP;
            && 0 <= idx <= 64 && (frac > 0 ==> idx < 64)
            && (frac == 0 ==> (ONE - p) / RECAL_STEP == 64 - idx)
            && (frac > 0 ==> (ONE - p) / RECAL_STEP == 63 - idx)
            && (frac > 0 ==> (ONE - p) - (63 - idx) * RECAL_STEP == RECAL_STEP - frac)
  {
  }

  /** The Yes price of `d` and the No price, that is the Yes price of `-d`, never sum to more
      than one and lose at most one unit. */
  lemma YesAndNoSum(l: Luts, d: int, den: int, horizon: int)
    requires Lawful(l) && -D_CLAMP <= d <= D_CLAMP
    requires forall i :: 0 <= i < PHASES ==> Symmetric(l.recal[i])
    ensures ONE - 1 <= FairOfD(l, d, den, horizon).pHat + FairOfD(l, -d, den, horizon).pHat <= ONE
  {
    RawMirror(l, d);
    var raw, t := RawPrice(l, d), l.recal[PhaseOf(horizon)];
    ComplementsSum(t, raw);
    InterpCell(t, RECAL_STEP, raw);
    InterpCell(t, RECAL_STEP, ONE - raw);
  }

  lemma RawMirror(l: Luts, d: int)
    requires Lawful(l) && -D_CLAMP <= d <= D_CLAMP
    ensures 0 <= RawPrice(l, d) <= ONE && RawPrice(l, -d) == ONE - RawPrice(l, d)
  {
    RawPriceLaw(l, d);
    if d == 0 {
      assert Phi(l, 0) == l.phi[0];
    }
  }
}
