/** The one-second grid of one underlying as a value: a log of what every second
    sampled. `Advance(true, ..)` takes the gap path of the source, `Advance(false, ..)` is the
    naive sampler that fills every second; `SampleAt` reads the sample off the event history. */
module LateModel {
  import opened Options
  import opened Fixed

  const SEC: int := 1_000_000_000
  const MARK_FRESH: int := 5_000_000_000
  const PERP_FRESH: int := 3_000_000_000
  const SIGMA_WINDOW: int := 900
  const R2_RING: int := 1024
  const SHORT_RING: int := 64
  const I64_MAX: int := 0x7FFF_FFFF_FFFF_FFFF

  // -- the grid ----------------------------------------------------------

  datatype Cell = Cell(mark: int, ratio: int)

  /** `sec` is the last filled second, 0 before the first; `log` holds every filled second. */
  datatype Grid = Grid(sec: int, mark: int, markWall: int, perp: int, perpWall: int, log: map<int, Cell>)

  const EMPTY: Grid := Grid(0, 0, 0, 0, 0, map[])

  function FreshMark(g: Grid, s: int): int {
    if g.mark > 0 && g.markWall <= s * SEC && s * SEC - g.markWall < MARK_FRESH then g.mark else 0
  }

  function FreshPerp(g: Grid, s: int): int {
    if g.perp > 0 && g.perpWall <= s * SEC && s * SEC - g.perpWall < PERP_FRESH then g.perp else 0
  }

  function RatioOf(m: int, p: int): int {
    if m > 0 && p > 0 then m * 2_000_000_000 / p else 0
  }

  function CellOf(g: Grid, s: int): Cell {
    Cell(FreshMark(g, s), RatioOf(FreshMark(g, s), FreshPerp(g, s)))
  }

  function CellAt(log: map<int, Cell>, s: int): Cell {
    if s in log then log[s] else Cell(0, 0)
  }

  function Blank(s: int): Cell { Cell(0, 0) }

  /** The log after sampling every second from the frontier up to `hi`, one by one. */
  function FillLog(g: Grid, hi: int): map<int, Cell>
    decreases hi - g.sec
  {
    if hi <= g.sec then g.log else FillLog(g, hi - 1)[hi := CellOf(g, hi)]
  }

  function Filled(g: Grid, target: int): Grid {
    g.(log := FillLog(g, target), sec := target)
  }

  lemma {:induction false} FillLogAt(g: Grid, hi: int)
    ensures forall s :: s in FillLog(g, hi) <==> s in g.log || g.sec < s <= hi
    ensures forall s :: s in FillLog(g, hi) ==>
                          FillLog(g, hi)[s] == if g.sec < s <= hi then CellOf(g, s) else g.log[s]
    decreases hi - g.sec
  {
    if g.sec < hi {
      FillLogAt(g, hi - 1);
    }
  }

  /** The gap path: the skipped seconds are blank, only the target is sampled. */
  function Jumped(g: Grid, target: int): Grid {
    g.(log := g.log + (map s | g.sec < s < target :: Blank(s)) + map[target := CellOf(g, target)],
       sec := target)
  }

  function Started(g: Grid, target: int): Grid {
    if g.sec == 0 then g.(sec := Max(target - 1, 0)) else g
  }

  function Advance(jump: bool, g: Grid, target: int): Grid {
    if g.sec == 0 && g.mark <= 0 then g
    else
      var g0 := Started(g, target);
      if target <= g0.sec then g0
      else if jump && target - g0.sec > R2_RING then Jumped(g0, target)
      else Filled(g0, target)
  }

  // -- events ------------------------------------------------------------

  datatype Event = Mark(wall: int, px: int) | Perp(wall: int, sum: int) | Query(wall: int)

  /** The last second strictly before `wall`. */
  function Before(wall: int): int { Max(wall - 1, 0) / SEC }

  function Step(jump: bool, g: Grid, e: Event): Grid {
    match e
    case Mark(wall, px) =>
      if px <= 0 then g else Advance(jump, g, Before(wall)).(mark := px, markWall := wall)
    case Perp(wall, sum) =>
      if sum <= 0 then g else Advance(jump, g, Before(wall)).(perp := sum, perpWall := wall)
    case Query(wall) => Advance(jump, g, wall / SEC)
  }

  function Run(jump: bool, h: seq<Event>): Grid {
    if h == [] then EMPTY else Step(jump, Run(jump, h[..|h| - 1]), h[|h| - 1])
  }

  /** A quote may follow when it is not older than what was seen, and not at the very instant a
      query has already sampled. */
  ghost predicate QuoteMayFollow(h: seq<Event>, wall: int) {
    forall i :: 0 <= i < |h| ==> h[i].wall <= wall && (h[i].Query? ==> (h[i].wall / SEC) * SEC < wall)
  }

  ghost predicate MayFollow(h: seq<Event>, e: Event) {
    if e.Query? then forall i :: 0 <= i < |h| ==> h[i].wall <= e.wall else QuoteMayFollow(h, e.wall)
  }

  ghost predicate Ordered(h: seq<Event>) {
    h == [] || (Ordered(h[..|h| - 1]) && MayFollow(h[..|h| - 1], h[|h| - 1]))
  }

  /** Time order alone: no event is older than one before it. */
  ghost predicate Chronological(h: seq<Event>) {
    h == [] || (Chronological(h[..|h| - 1]) && forall i :: 0 <= i < |h| - 1 ==> h[i].wall <= h[|h| - 1].wall)
  }

  lemma {:induction false} OrderedIsChronological(h: seq<Event>)
    requires Ordered(h)
    ensures Chronological(h)
    decreases |h|
  {
    if h != [] {
      var h0 := h[..|h| - 1];
      OrderedIsChronological(h0);
      forall i | 0 <= i < |h| - 1
        ensures h[i].wall <= h[|h| - 1].wall
      {
        assert h0[i] == h[i];
      }
    }
  }

  // -- the reference -----------------------------------------------------

  /** The last accepted mark at or before `t`. */
  ghost function LastMark(h: seq<Event>, t: int): Option<(int, int)> {
    if h == [] then None
    else
      var e := h[|h| - 1];
      if e.Mark? && e.px > 0 && e.wall <= t then Some((e.wall, e.px)) else LastMark(h[..|h| - 1], t)
  }

  ghost function LastPerp(h: seq<Event>, t: int): Option<(int, int)> {
    if h == [] then None
    else
      var e := h[|h| - 1];
      if e.Perp? && e.sum > 0 && e.wall <= t then Some((e.wall, e.sum)) else LastPerp(h[..|h| - 1], t)
  }

  ghost function FreshOf(q: Option<(int, int)>, t: int, bound: int): int {
    if q.Some? && t - q.value.0 < bound then q.value.1 else 0
  }

  /** The last mark at or before second `s` if it is under five seconds old, else 0. */
  ghost function SampleAt(h: seq<Event>, s: int): int {
    FreshOf(LastMark(h, s * SEC), s * SEC, MARK_FRESH)
  }

  ghost function RatioAt(h: seq<Event>, s: int): int {
    RatioOf(SampleAt(h, s), FreshOf(LastPerp(h, s * SEC), s * SEC, PERP_FRESH))
  }

  // -- squared returns ---------------------------------------------------

  function ReturnOk(log: map<int, Cell>, s: int): bool {
    CellAt(log, s).mark > 0 && CellAt(log, s - 1).mark > 0
  }

  function SquaredReturn(log: map<int, Cell>, s: int): int
    requires ReturnOk(log, s)
  {
    var prev := CellAt(log, s - 1).mark;
    var r := (CellAt(log, s).mark - prev) * 1_000_000_000 / prev;
    Min(r * r, I64_MAX)
  }

  function Term(log: map<int, Cell>, s: int): int {
    if ReturnOk(log, s) then SquaredReturn(log, s) else 0
  }

  /** The sum, and below the count, of the valid squared returns of the seconds in `(lo, hi]`. */
  function SumR2(log: map<int, Cell>, lo: int, hi: int): int
    decreases hi - lo
  {
    if hi <= lo then 0 else SumR2(log, lo, hi - 1) + Term(log, hi)
  }

  function CountR(log: map<int, Cell>, lo: int, hi: int): int
    decreases hi - lo
  {
    if hi <= lo then 0 else CountR(log, lo, hi - 1) + (if ReturnOk(log, hi) then 1 else 0)
  }

  /** What a second adds. With a mark there and at the second before, the square of its return, which is
      relative to the earlier mark: `r` billionths of it, floored; the square is capped at the largest
      i64. Otherwise nothing. */
  lemma ReturnLaw(log: map<int, Cell>, s: int) returns (r: int)
    ensures var m, prev, term := CellAt(log, s).mark, CellAt(log, s - 1).mark, Term(log, s);
            if 0 < m && 0 < prev
            then && ReturnOk(log, s) && r * prev <= (m - prev) * 1_000_000_000 < (r + 1) * prev
                 && term == (if r * r <= I64_MAX then r * r else I64_MAX) && 0 <= term
            else !ReturnOk(log, s) && term == 0
  {
    var m, prev := CellAt(log, s).mark, CellAt(log, s - 1).mark;
    r := 0;
    if 0 < m && 0 < prev {
      r := (m - prev) * 1_000_000_000 / prev;
      DivLaw((m - prev) * 1_000_000_000, prev);
    }
  }

  /** The seconds in `(lo, hi]` that, like the one before them, have a mark. */
  ghost function Returning(log: map<int, Cell>, lo: int, hi: int): set<int> {
    set s | lo < s <= hi && ReturnOk(log, s)
  }

  /** They are what is counted. */
  lemma {:induction false} CountLaw(log: map<int, Cell>, lo: int, hi: int)
    ensures CountR(log, lo, hi) == |Returning(log, lo, hi)|
    decreases hi - lo
  {
    if hi <= lo {
      assert Returning(log, lo, hi) == {};
    } else {
      CountLaw(log, lo, hi - 1);
      var before := Returning(log, lo, hi - 1);
      assert Returning(log, lo, hi) == if ReturnOk(log, hi) then before + {hi} else before;
    }
  }

  lemma {:induction false} StatsCongruent(a: map<int, Cell>, b: map<int, Cell>, lo: int, hi: int)
    requires forall s :: lo <= s <= hi ==> CellAt(a, s) == CellAt(b, s)
    ensures SumR2(a, lo, hi) == SumR2(b, lo, hi) && CountR(a, lo, hi) == CountR(b, lo, hi)
    decreases hi - lo
  {
    if lo < hi {
      StatsCongruent(a, b, lo, hi - 1);
      assert CellAt(a, hi) == CellAt(b, hi) && CellAt(a, hi - 1) == CellAt(b, hi - 1);
    }
  }

  /** The window's oldest second leaves with exactly its own term. */
  lemma {:induction false} StatsDropOldest(log: map<int, Cell>, lo: int, hi: int)
    requires lo < hi
    ensures SumR2(log, lo, hi) == Term(log, lo + 1) + SumR2(log, lo + 1, hi)
    ensures CountR(log, lo, hi) == (if ReturnOk(log, lo + 1) then 1 else 0) + CountR(log, lo + 1, hi)
    decreases hi - lo
  {
    if lo + 1 < hi {
      StatsDropOldest(log, lo, hi - 1);
    }
  }

  lemma {:induction false} StatsOfBlank(log: map<int, Cell>, lo: int, hi: int)
    requires forall s :: lo < s <= hi ==> !ReturnOk(log, s)
    ensures SumR2(log, lo, hi) == 0 && CountR(log, lo, hi) == 0
    decreases hi - lo
  {
    if lo < hi {
      StatsOfBlank(log, lo, hi - 1);
    }
  }

  /** Logging second `s` moves the window by one: the expired term leaves, the new one enters. */
  lemma StatsRoll(log: map<int, Cell>, cell: Cell, s: int)
    requires forall k :: k in log ==> k < s
    ensures var next := log[s := cell];
            && SumR2(next, s - SIGMA_WINDOW, s)
               == SumR2(log, s - 1 - SIGMA_WINDOW, s - 1) - Term(log, s - SIGMA_WINDOW) + Term(next, s)
            && CountR(next, s - SIGMA_WINDOW, s)
               == CountR(log, s - 1 - SIGMA_WINDOW, s - 1)
                  - (if ReturnOk(log, s - SIGMA_WINDOW) then 1 else 0) + (if ReturnOk(next, s) then 1 else 0)
  {
    var next := log[s := cell];
    StatsDropOldest(log, s - 1 - SIGMA_WINDOW, s - 1);
    StatsCongruent(log, next, s - SIGMA_WINDOW, s - 1);
  }

  // -- ordered runs ------------------------------------------------------

  lemma AdvanceShape(jump: bool, g: Grid, target: int)
    requires g.sec >= 0
    ensures var r := Advance(jump, g, target);
            && r == g.(sec := r.sec, log := r.log)
            && r.sec == (if g.sec == 0 && (g.mark <= 0 || target <= 0) then 0 else Max(g.sec, target))
            && g.sec <= r.sec
  {
  }

  lemma PrefixOrdered(h: seq<Event>, w: int)
    requires h != []
    requires QuoteMayFollow(h, w)
    ensures QuoteMayFollow(h[..|h| - 1], w)
  {
    var p := h[..|h| - 1];
    forall i | 0 <= i < |p|
      ensures p[i].wall <= w && (p[i].Query? ==> (p[i].wall / SEC) * SEC < w)
    {
      assert p[i] == h[i];
    }
  }

  /** In ordered use a quote arrives strictly after every second already filled. */
  lemma {:induction false} FrontierBehind(jump: bool, h: seq<Event>, w: int)
    requires Ordered(h) && QuoteMayFollow(h, w)
    ensures var g := Run(jump, h);
            0 <= g.sec && (g.sec > 0 ==> g.sec * SEC < w)
    decreases |h|
  {
    if h != [] {
      var h0, e := h[..|h| - 1], h[|h| - 1];
      PrefixOrdered(h, w);
      FrontierBehind(jump, h0, w);
      AdvanceShape(jump, Run(jump, h0), if e.Query? then e.wall / SEC else Before(e.wall));
    }
  }

  /** The current mark was set no later than the second after the frontier, so it is stale six
      seconds on: nothing the gap path skips could have been sampled. */
  lemma {:induction false} MarkNearFrontier(jump: bool, h: seq<Event>)
    requires Chronological(h)
    ensures var g := Run(jump, h);
            0 <= g.sec && (g.sec > 0 ==> g.mark > 0 && g.markWall <= (g.sec + 1) * SEC)
    decreases |h|
  {
    if h != [] {
      var h0, e := h[..|h| - 1], h[|h| - 1];
      var g := Run(jump, h0);
      MarkNearFrontier(jump, h0);
      AdvanceShape(jump, g, if e.Query? then e.wall / SEC else Before(e.wall));
      WallsBounded(jump, h0, e.wall);
    }
  }

  lemma {:induction false} WallsBounded(jump: bool, h: seq<Event>, w: int)
    requires forall i :: 0 <= i < |h| ==> h[i].wall <= w
    ensures var g := Run(jump, h);
            g.sec >= 0 && (g.mark > 0 ==> g.markWall <= w) && (g.perp > 0 ==> g.perpWall <= w)
            && (g.sec > 0 ==> g.sec * SEC <= w)
    decreases |h|
  {
    if h != [] {
      var h0, e := h[..|h| - 1], h[|h| - 1];
      WallsBounded(jump, h0, w);
      AdvanceShape(jump, Run(jump, h0), if e.Query? then e.wall / SEC else Before(e.wall));
    }
  }
}
