/** Integer arithmetic shared by the fixed-point pricers: floor division by a
    positive divisor, the floor square root and linear interpolation in a table.
    Dafny's `/` is the floor division of the source whenever the divisor is positive. */
module Fixed {

  lemma MulMono(a: int, b: int, d: int)
    requires a <= b && 0 <= d
    ensures a * d <= b * d
  {
  }

  /** `q` is the floor of `n / d` exactly when `q * d <= n < (q + 1) * d`. */
  lemma DivUnique(n: int, d: int, q: int)
    requires 0 < d
    requires q * d <= n < q * d + d
    ensures n / d == q
  {
    var p := n / d;
    assert n == p * d + n % d;
    if p < q {
      MulMono(p + 1, q, d);
    } else if p > q {
      MulMono(q + 1, p, d);
    }
  }

  /** The floor's two inequalities. */
  lemma DivLaw(n: int, d: int)
    requires 0 < d
    ensures (n / d) * d <= n < (n / d + 1) * d
  {
    assert n == (n / d) * d + n % d;
  }

  lemma DivMono(a: int, b: int, d: int)
    requires a <= b && 0 < d
    ensures a / d <= b / d
  {
    assert a == (a / d) * d + a % d;
    assert b == (b / d) * d + b % d;
    if b / d < a / d {
      MulMono(b / d + 1, a / d, d);
    }
  }

  lemma DivAtMost(n: int, d: int, bound: int)
    requires 0 < d && n <= bound * d
    ensures n / d <= bound
  {
    assert n == (n / d) * d + n % d;
    if bound < n / d {
      MulMono(bound + 1, n / d, d);
    }
  }

  lemma DivAtLeast(n: int, d: int, bound: int)
    requires 0 < d && bound * d <= n
    ensures bound <= n / d
  {
    assert n == (n / d) * d + n % d;
    if n / d < bound {
      MulMono(n / d + 1, bound, d);
    }
  }

  lemma DivBelow(n: int, d: int, bound: int)
    requires 0 < d && n < bound * d
    ensures n / d < bound
  {
    assert n == (n / d) * d + n % d;
    if bound <= n / d {
      MulMono(bound, n / d, d);
    }
  }

  /** Dividing by a positive integer never leaves the interval spanned by 0, -1 and the numerator. */
  lemma DivShrinks(n: int, d: int)
    requires 0 < d
    ensures n >= 0 ==> 0 <= n / d <= n
    ensures n < 0 ==> n <= n / d < 0
  {
    if n >= 0 {
      MulMono(1, d, n);
      DivAtMost(n, d, n);
      DivAtLeast(n, d, 0);
    } else {
      MulMono(1, d, -n);
      DivAtLeast(n, d, n);
      assert n == (n / d) * d + n % d;
      if 0 <= n / d {
        MulMono(0, n / d, d);
      }
    }
  }

  /** The sign of a floored quotient is the sign of its numerator. */
  lemma DivSign(n: int, d: int)
    requires 0 < d
    ensures n / d >= 0 <==> n >= 0
  {
    DivShrinks(n, d);
  }

  function Min(a: int, b: int): int { if a <= b then a else b }

  function Max(a: int, b: int): int { if a >= b then a else b }

  function Clamp(lo: int, x: int, hi: int): int { Min(Max(x, lo), hi) }

  lemma SquareMono(a: nat, b: nat)
    requires a <= b
    ensures a * a <= b * b
  {
    MulMono(a, b, a);
    MulMono(a, b, b);
  }

  lemma SqrtDigit(v: nat, h: nat)
    requires h * h <= v / 4 < (h + 1) * (h + 1)
    ensures var odd := 2 * h + 1;
            var r := if odd * odd <= v then odd else 2 * h;
            r * r <= v < (r + 1) * (r + 1)
  {
    var s := h * h;
    assert (h + 1) * (h + 1) == s + 2 * h + 1;
    assert (2 * h) * (2 * h) == 4 * s;
    assert (2 * h + 2) * (2 * h + 2) == 4 * s + 8 * h + 4;
  }

  /** Floor square root by the base-four digit recursion. */
  function ISqrt(v: nat): (r: nat)
    ensures r * r <= v < (r + 1) * (r + 1)
  {
    if v == 0 then 0
    else
      var h := ISqrt(v / 4);
      SqrtDigit(v, h);
      var odd := 2 * h + 1;
      if odd * odd <= v then odd else 2 * h
  }

  lemma ISqrtUnique(v: nat, r: nat)
    requires r * r <= v < (r + 1) * (r + 1)
    ensures ISqrt(v) == r
  {
    var p := ISqrt(v);
    if p < r {
      SquareMono(p + 1, r);
    } else if r < p {
      SquareMono(r + 1, p);
    }
  }

  lemma SmallerSet(a: set<int>, b: set<int>)
    requires a <= b
    ensures |a| <= |b|
  {
    assert b == a + (b - a) && a * (b - a) == {};
  }

  // -- linear interpolation ----------------------------------------------

  ghost predicate Monotone(t: seq<int>) {
    forall i, j :: 0 <= i <= j < |t| ==> t[i] <= t[j]
  }

  ghost predicate Within(t: seq<int>, lo: int, hi: int) {
    forall i :: 0 <= i < |t| ==> lo <= t[i] <= hi
  }

  /** The value at `x` of the piecewise-linear table `t` on the grid `0, step, 2 step, ...`,
      floored, and flat past the last point. */
  function Interp(t: seq<int>, step: int, x: int): int
    requires |t| > 0 && 0 < step && 0 <= x
  {
    var idx := x / step;
    if idx >= |t| - 1 then t[|t| - 1]
    else t[idx] + (t[idx + 1] - t[idx]) * (x - idx * step) / step
  }

  /** Inside one cell a rising table interpolates between the cell's two ends. */
  lemma CellBounds(lo: int, hi: int, frac: int, step: int)
    requires lo <= hi && 0 <= frac <= step && 0 < step
    ensures lo <= lo + (hi - lo) * frac / step <= hi
  {
    MulMono(frac, step, hi - lo);
    MulMono(0, hi - lo, frac);
    DivAtLeast((hi - lo) * frac, step, 0);
    DivAtMost((hi - lo) * frac, step, hi - lo);
  }

  lemma InterpCell(t: seq<int>, step: int, x: int)
    requires |t| > 0 && 0 < step && 0 <= x && Monotone(t)
    ensures x / step < |t| - 1 ==> t[x / step] <= Interp(t, step, x) <= t[x / step + 1]
    ensures t[0] <= Interp(t, step, x) <= t[|t| - 1]
  {
    var idx := x / step;
    if idx < |t| - 1 {
      assert x == idx * step + x % step;
      CellBounds(t[idx], t[idx + 1], x - idx * step, step);
    }
  }

  /** `r` is the floor at `x` of the straight line through the two table points around it. */
  ghost predicate OnLine(t: seq<int>, step: int, x: int, r: int)
    requires |t| > 0 && 0 < step && 0 <= x
  {
    var i := x / step;
    if i < |t| - 1
    then (r - t[i]) * step <= (t[i + 1] - t[i]) * (x - i * step) < (r - t[i] + 1) * step
    else r == t[|t| - 1]
  }

  lemma InterpOnLine(t: seq<int>, step: int, x: int)
    requires |t| > 0 && 0 < step && 0 <= x
    ensures OnLine(t, step, x, Interp(t, step, x))
  {
    var i := x / step;
    if i < |t| - 1 {
      DivLaw((t[i + 1] - t[i]) * (x - i * step), step);
    }
  }

  /** A rising table interpolates to a non-decreasing function, floors included. */
  lemma InterpMonotone(t: seq<int>, step: int, x: int, y: int)
    requires |t| > 0 && 0 < step && 0 <= x <= y && Monotone(t)
    ensures Interp(t, step, x) <= Interp(t, step, y)
  {
    DivMono(x, y, step);
    InterpCell(t, step, x);
    InterpCell(t, step, y);
    var i, j := x / step, y / step;
    if i == j && j < |t| - 1 {
      var rise := t[i + 1] - t[i];
      assert x - i * step <= y - i * step;
      MulMono(x - i * step, y - i * step, rise);
      DivMono(rise * (x - i * step), rise * (y - i * step), step);
    }
  }
}
