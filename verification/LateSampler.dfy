/** The grid against its reference, for every ordered history: the naive sampler's log is read off
    the history, and the gap path leaves what the pricer looks at unchanged. */
module LateSampler {
  import opened Options
  import opened LateModel

  // -- the current quotes are the last ones ------------------------------

  ghost function Held(q: int, wall: int, t: int): Option<(int, int)> {
    if q > 0 && wall <= t then Some((wall, q)) else None
  }

  /** From the frontier on, the last mark at or before a second is the current one. */
  ghost predicate MarkPending(h: seq<Event>, g: Grid) {
    forall s :: g.sec < s ==> LastMark(h, s * SEC) == Held(g.mark, g.markWall, s * SEC)
  }

  /** The same for the perp, at every second the current mark reaches. */
  ghost predicate PerpPending(h: seq<Event>, g: Grid) {
    forall s :: g.sec < s && g.mark > 0 && g.markWall <= s * SEC ==>
                  LastPerp(h, s * SEC) == Held(g.perp, g.perpWall, s * SEC)
  }

  /** The filled seconds are one unbroken run ending at the frontier. */
  ghost predicate LogUnbroken(g: Grid) {
    && (g.sec > 0 ==> g.sec in g.log)
    && forall s, t :: s in g.log && s <= t <= g.sec ==> t in g.log
  }

  /** When every event is at or before `t`, the last perp is the current one. */
  lemma {:induction false} CurrentPerp(jump: bool, h: seq<Event>, t: int)
    requires forall i :: 0 <= i < |h| ==> h[i].wall <= t
    ensures var g := Run(jump, h); g.sec >= 0 && LastPerp(h, t) == Held(g.perp, g.perpWall, t)
    decreases |h|
  {
    if h != [] {
      var h0, e := h[..|h| - 1], h[|h| - 1];
      CurrentPerp(jump, h0, t);
      AdvanceShape(jump, Run(jump, h0), if e.Query? then e.wall / SEC else Before(e.wall));
    }
  }

  /** What holds of the second-by-second fill after any history in time order. */
  ghost predicate Pending(h: seq<Event>, g: Grid) {
    && 0 <= g.sec
    && MarkPending(h, g) && PerpPending(h, g) && LogUnbroken(g)
    && (forall s :: s in g.log ==> 1 <= s <= g.sec)
    && (g.sec == 0 ==> g.log == map[])
  }

  /** Advancing samples what the history holds so far, and leaves the seconds already filled. */
  lemma AdvanceSamples(h: seq<Event>, g: Grid, target: int)
    requires Pending(h, g)
    ensures var r := Advance(false, g, target);
            && Pending(h, r)
            && (forall s :: s in g.log ==> s in r.log && r.log[s] == g.log[s])
            && (forall s :: s in r.log && s !in g.log ==>
                              g.sec < s <= target && r.log[s] == Cell(SampleAt(h, s), RatioAt(h, s)))
  {
    var r := Advance(false, g, target);
    AdvanceShape(false, g, target);
    FillLogAt(Started(g, target), target);
    forall s | s in r.log && s !in g.log
      ensures g.sec < s <= target && r.log[s] == Cell(SampleAt(h, s), RatioAt(h, s))
    {
      assert g.sec < s <= r.sec;
      assert r.log[s] == CellOf(g, s);
      assert LastMark(h, s * SEC) == Held(g.mark, g.markWall, s * SEC);
    }
  }

  lemma MarkKeepsPending(h: seq<Event>, e: Event, g: Grid, r: Grid)
    requires e.Mark? && e.px > 0 && Pending(h, g) && forall i :: 0 <= i < |h| ==> h[i].wall <= e.wall
    requires g == Run(false, h) && r == Step(false, g, e)
    ensures MarkPending(h + [e], r) && PerpPending(h + [e], r)
  {
    var h1 := h + [e];
    assert h1[..|h1| - 1] == h;
    var a := Advance(false, g, Before(e.wall));
    AdvanceShape(false, g, Before(e.wall));
    AdvanceSamples(h, g, Before(e.wall));
    WallsBounded(false, h, e.wall);
    forall s | r.sec < s
      ensures LastMark(h1, s * SEC) == Held(r.mark, r.markWall, s * SEC)
    {
      if e.wall > s * SEC {
        assert LastMark(h, s * SEC) == Held(a.mark, a.markWall, s * SEC);
        assert g.mark <= 0;
      }
    }
    forall s | r.sec < s && r.markWall <= s * SEC
      ensures LastPerp(h1, s * SEC) == Held(r.perp, r.perpWall, s * SEC)
    {
      if g.mark <= 0 {
        CurrentPerp(false, h, s * SEC);
      }
    }
  }

  lemma PerpKeepsPending(h: seq<Event>, e: Event, g: Grid, r: Grid)
    requires e.Perp? && e.sum > 0 && Pending(h, g) && forall i :: 0 <= i < |h| ==> h[i].wall <= e.wall
    requires r == Step(false, g, e)
    ensures MarkPending(h + [e], r) && PerpPending(h + [e], r)
  {
    var h1 := h + [e];
    assert h1[..|h1| - 1] == h;
    AdvanceShape(false, g, Before(e.wall));
    AdvanceSamples(h, g, Before(e.wall));
  }

  // -- what a filled second holds ----------------------------------------

  /** The part of the history that ends with the event that filled second `s`. */
  ghost function FillPrefix(h: seq<Event>, s: int): seq<Event> {
    if h != [] && s in Run(false, h[..|h| - 1]).log then FillPrefix(h[..|h| - 1], s) else h
  }

  /** The sample and the ratio of `s` as the history stood when it was filled. */
  ghost function AsFilled(h: seq<Event>, s: int): Cell {
    Cell(SampleAt(FillPrefix(h, s), s), RatioAt(FillPrefix(h, s), s))
  }

  /** An event that is no quote, or one after second `s`, does not change what `s` should hold. */
  lemma LaterEvent(h: seq<Event>, e: Event, s: int)
    requires e.Query? || s * SEC < e.wall || (e.Mark? && e.px <= 0) || (e.Perp? && e.sum <= 0)
    ensures SampleAt(h + [e], s) == SampleAt(h, s) && RatioAt(h + [e], s) == RatioAt(h, s)
    ensures LastMark(h + [e], s * SEC) == LastMark(h, s * SEC) && LastPerp(h + [e], s * SEC) == LastPerp(h, s * SEC)
  {
    assert (h + [e])[..|h|] == h;
  }

  ghost predicate Ignored(e: Event) { (e.Mark? && e.px <= 0) || (e.Perp? && e.sum <= 0) }

  lemma {:induction false} StaysPending(h: seq<Event>)
    requires Chronological(h)
    ensures Pending(h, Run(false, h))
    decreases |h|
  {
    if h != [] {
      var h0, e := h[..|h| - 1], h[|h| - 1];
      assert h0 + [e] == h;
      StaysPending(h0);
      PendingStep(h0, e);
    }
  }

  lemma PendingStep(h: seq<Event>, e: Event)
    requires Pending(h, Run(false, h)) && forall i :: 0 <= i < |h| ==> h[i].wall <= e.wall
    ensures Pending(h + [e], Run(false, h + [e]))
  {
    var h1, g := h + [e], Run(false, h);
    assert h1[..|h1| - 1] == h;
    var r := Run(false, h1);
    assert r == Step(false, g, e);
    var target := if e.Query? then e.wall / SEC else Before(e.wall);
    AdvanceShape(false, g, target);
    AdvanceSamples(h, g, target);
    if e.Query? || Ignored(e) {
      forall s
        ensures LastMark(h1, s * SEC) == LastMark(h, s * SEC) && LastPerp(h1, s * SEC) == LastPerp(h, s * SEC)
      {
        LaterEvent(h, e, s);
      }
    } else if e.Mark? {
      MarkKeepsPending(h, e, g, r);
    } else {
      PerpKeepsPending(h, e, g, r);
    }
  }

  /** In every history in time order, each filled second holds the last mark at or before it, if under
      five seconds old, and the ratio to the fresh perp, as the history stood when it was filled. */
  lemma {:induction false} FilledAsOf(h: seq<Event>, s: int)
    requires Chronological(h) && s in Run(false, h).log
    ensures Run(false, h).log[s] == AsFilled(h, s)
    decreases |h|
  {
    var h0, e := h[..|h| - 1], h[|h| - 1];
    assert h0 + [e] == h;
    StaysPending(h0);
    var g := Run(false, h0);
    var target := if e.Query? then e.wall / SEC else Before(e.wall);
    AdvanceShape(false, g, target);
    AdvanceSamples(h0, g, target);
    if s in g.log {
      FilledAsOf(h0, s);
    } else {
      assert 1 <= s <= target;
      LaterEvent(h0, e, s);
    }
  }

  // -- quotes that come too late -----------------------------------------

  /** The last mark that came after second `s` was filled and is stamped no later than it. */
  ghost function LateMark(h: seq<Event>, s: int): Option<int> {
    if h == [] || s !in Run(false, h[..|h| - 1]).log then None
    else
      var e := h[|h| - 1];
      if e.Mark? && e.px > 0 && e.wall <= s * SEC then Some(e.px) else LateMark(h[..|h| - 1], s)
  }

  ghost function LatePerp(h: seq<Event>, s: int): Option<int> {
    if h == [] || s !in Run(false, h[..|h| - 1]).log then None
    else
      var e := h[|h| - 1];
      if e.Perp? && e.sum > 0 && e.wall <= s * SEC then Some(e.sum) else LatePerp(h[..|h| - 1], s)
  }

  /** The second's perp, as the history stands. */
  ghost function PerpAt(h: seq<Event>, s: int): int { FreshOf(LastPerp(h, s * SEC), s * SEC, PERP_FRESH) }

  /** A second is filled by an event at or after it. */
  lemma {:induction false} FilledBy(h: seq<Event>, s: int)
    requires Chronological(h) && s in Run(false, h).log
    ensures h != [] && s * SEC <= h[|h| - 1].wall
    decreases |h|
  {
    var h0, e := h[..|h| - 1], h[|h| - 1];
    StaysPending(h0);
    var g := Run(false, h0);
    var target := if e.Query? then e.wall / SEC else Before(e.wall);
    AdvanceShape(false, g, target);
    AdvanceSamples(h0, g, target);
    if s in g.log {
      FilledBy(h0, s);
      assert h0[|h0| - 1] == h[|h0| - 1];
    } else {
      assert 1 <= s <= target;
    }
  }

  /** What a second should hold is what it held when filled, but for the quotes that came too late. */
  lemma {:induction false} LateQuotes(h: seq<Event>, s: int)
    requires Chronological(h) && s in Run(false, h).log
    ensures SampleAt(h, s) == if LateMark(h, s).Some? then LateMark(h, s).value else AsFilled(h, s).mark
    ensures PerpAt(h, s) == if LatePerp(h, s).Some? then LatePerp(h, s).value else PerpAt(FillPrefix(h, s), s)
    decreases |h|
  {
    if h != [] && s in Run(false, h[..|h| - 1]).log {
      var h0, e := h[..|h| - 1], h[|h| - 1];
      assert h0 + [e] == h;
      LateQuotes(h0, s);
      FilledBy(h, s);
      if e.Query? || Ignored(e) || s * SEC < e.wall {
        LaterEvent(h0, e, s);
      }
    }
  }

  /** The second holds what it should: a mark that came too late repeats its mark, and a perp quote that
      did its ratio. */
  ghost predicate Undisturbed(h: seq<Event>, s: int) {
    s in Run(false, h).log ==>
      var cell := Run(false, h).log[s];
      && (LateMark(h, s).Some? ==> LateMark(h, s).value == cell.mark)
      && (LatePerp(h, s).Some? ==> RatioOf(cell.mark, LatePerp(h, s).value) == cell.ratio)
  }

  /** Exactly then is a filled second right by the whole history. */
  lemma RightExactly(h: seq<Event>, s: int)
    requires Chronological(h) && s in Run(false, h).log
    ensures Run(false, h).log[s] == Cell(SampleAt(h, s), RatioAt(h, s)) <==> Undisturbed(h, s)
  {
    FilledAsOf(h, s);
    LateQuotes(h, s);
    assert RatioAt(h, s) == RatioOf(SampleAt(h, s), PerpAt(h, s));
    assert AsFilled(h, s).ratio == RatioOf(AsFilled(h, s).mark, PerpAt(FillPrefix(h, s), s));
  }

  /** Where no quote sits at the instant of a query, none comes too late. */
  lemma {:induction false} OrderedIsUndisturbed(h: seq<Event>, s: int)
    requires Ordered(h) && s in Run(false, h).log
    ensures LateMark(h, s) == None && LatePerp(h, s) == None
    decreases |h|
  {
    var h0, e := h[..|h| - 1], h[|h| - 1];
    if s in Run(false, h0).log {
      OrderedIsUndisturbed(h0, s);
      OrderedIsChronological(h);
      StaysPending(h0);
      if !e.Query? {
        FrontierBehind(false, h0, e.wall);
        assert s * SEC <= Run(false, h0).sec * SEC;
      }
    }
  }

  /** There the naive sampler is the history: every second it has filled holds the last mark at or before
      that second if under five seconds old, else 0, and the ratio to the fresh perp. */
  lemma NaiveIsSampler(h: seq<Event>, s: int)
    requires Ordered(h) && s in Run(false, h).log
    ensures Run(false, h).log[s] == Cell(SampleAt(h, s), RatioAt(h, s))
  {
    OrderedIsChronological(h);
    OrderedIsUndisturbed(h, s);
    RightExactly(h, s);
  }

  // -- the gap path ------------------------------------------------------

  /** How far back the fast log and the naive log provably agree. */
  const AGREE: int := 1020

  ghost predicate SameRecent(f: Grid, n: Grid) {
    && f == n.(log := f.log)
    && (forall s :: n.sec - AGREE < s <= n.sec ==> CellAt(f.log, s) == CellAt(n.log, s))
    && (forall s :: s in f.log || s in n.log ==> s <= n.sec)
  }

  /** Six seconds past the frontier the current mark is stale, so there is nothing to sample. */
  lemma StaleByThen(g: Grid, s: int)
    requires g.markWall <= (g.sec + 1) * SEC && g.sec + 6 <= s
    ensures CellOf(g, s) == Blank(s)
  {
  }

  lemma AdvanceKeepsSame(f: Grid, n: Grid, target: int)
    requires SameRecent(f, n) && 0 <= n.sec
    requires n.sec > 0 ==> n.markWall <= (n.sec + 1) * SEC
    requires n.sec == 0 ==> f.log == map[] && n.log == map[]
    ensures SameRecent(Advance(true, f, target), Advance(false, n, target))
  {
    var f1, n1 := Advance(true, f, target), Advance(false, n, target);
    if !(n.sec == 0 && n.mark <= 0) && target > Started(n, target).sec {
      var f0, n0 := Started(f, target), Started(n, target);
      FillLogAt(f0, target);
      FillLogAt(n0, target);
      forall s | target - AGREE < s <= target
        ensures CellAt(f1.log, s) == CellAt(n1.log, s)
      {
        if target - n0.sec > R2_RING && s < target {
          StaleByThen(n0, s);
          assert CellAt(n1.log, s) == CellOf(n0, s);
          assert CellAt(f1.log, s) == Blank(s);
        } else if s <= n0.sec {
          assert CellAt(f1.log, s) == CellAt(f.log, s);
          assert CellAt(n1.log, s) == CellAt(n.log, s);
        }
      }
    }
  }

  lemma {:induction false} EmptyUntilStarted(jump: bool, h: seq<Event>)
    ensures var g := Run(jump, h); g.sec >= 0 && (g.sec == 0 ==> g.log == map[])
    decreases |h|
  {
    if h != [] {
      var h0, e := h[..|h| - 1], h[|h| - 1];
      EmptyUntilStarted(jump, h0);
      AdvanceShape(jump, Run(jump, h0), if e.Query? then e.wall / SEC else Before(e.wall));
    }
  }

  /** In every run in time order the gap path and the second-by-second fill agree on the last 1020
      seconds. */
  lemma {:induction false} GapPathAgrees(h: seq<Event>)
    requires Chronological(h)
    ensures SameRecent(Run(true, h), Run(false, h))
    decreases |h|
  {
    if h != [] {
      var h0, e := h[..|h| - 1], h[|h| - 1];
      GapPathAgrees(h0);
      MarkNearFrontier(false, h0);
      EmptyUntilStarted(true, h0);
      EmptyUntilStarted(false, h0);
      AdvanceKeepsSame(Run(true, h0), Run(false, h0), if e.Query? then e.wall / SEC else Before(e.wall));
    }
  }

  // -- the main results --------------------------------------------------

  /** The first second a run fills; 0 while it has filled none. */
  ghost function FirstFilled(h: seq<Event>): int {
    if h == [] then 0
    else
      var before := FirstFilled(h[..|h| - 1]);
      if before > 0 then before else Run(false, h).sec
  }

  lemma {:induction false} FilledFromFirst(h: seq<Event>)
    ensures var n := Run(false, h);
            var f := FirstFilled(h);
            0 <= f <= n.sec && 0 <= n.sec && (f == 0 <==> n.sec == 0)
            && (forall s :: s in n.log <==> 0 < f <= s <= n.sec)
    decreases |h|
  {
    if h != [] {
      var h0, e := h[..|h| - 1], h[|h| - 1];
      FilledFromFirst(h0);
      var target := if e.Query? then e.wall / SEC else Before(e.wall);
      FillLogAt(Started(Run(false, h0), target), target);
      AdvanceShape(false, Run(false, h0), if e.Query? then e.wall / SEC else Before(e.wall));
    }
  }

  /** What the reference holds at second `s` of a history. */
  ghost function Reference(h: seq<Event>, s: int): Cell {
    if s in Run(false, h).log then Cell(SampleAt(h, s), RatioAt(h, s)) else Cell(0, 0)
  }

  /** What it held when `s` was filled. */
  ghost function ReferenceAsFilled(h: seq<Event>, s: int): Cell {
    if s in Run(false, h).log then AsFilled(h, s) else Cell(0, 0)
  }

  /** Every second of the recent past, on the path the source takes (gap path included), holds the
      sample as the history stood when it was filled; and the sample by the whole history exactly where
      no quote came too late to change it. */
  lemma GridMatchesHistory(h: seq<Event>, s: int)
    requires Chronological(h) && Run(true, h).sec - AGREE < s <= Run(true, h).sec
    ensures CellAt(Run(true, h).log, s) == ReferenceAsFilled(h, s)
    ensures CellAt(Run(true, h).log, s) == Reference(h, s) <==> Undisturbed(h, s)
  {
    GapPathAgrees(h);
    assert CellAt(Run(true, h).log, s) == CellAt(Run(false, h).log, s);
    if s in Run(false, h).log {
      FilledAsOf(h, s);
      RightExactly(h, s);
    }
  }

  /** The gap path leaves the rolling sum and count of the naive sampler. */
  lemma GapPathKeepsStats(h: seq<Event>)
    requires Chronological(h)
    ensures var g, n := Run(true, h), Run(false, h);
            && g.sec == n.sec
            && SumR2(g.log, g.sec - SIGMA_WINDOW, g.sec) == SumR2(n.log, n.sec - SIGMA_WINDOW, n.sec)
            && CountR(g.log, g.sec - SIGMA_WINDOW, g.sec) == CountR(n.log, n.sec - SIGMA_WINDOW, n.sec)
  {
    GapPathAgrees(h);
    var g, n := Run(true, h), Run(false, h);
    StatsCongruent(g.log, n.log, g.sec - SIGMA_WINDOW, g.sec);
  }

  /** A mark stamped at the instant of a second already filled does not reach it: the second is left as
      it was, and is right in its mark exactly when that repeats the price. */
  lemma MarkAtQueriedInstant(h: seq<Event>, s: int, px: int)
    requires Chronological(h) && s in Run(false, h).log && 0 < px
    requires forall i :: 0 <= i < |h| ==> h[i].wall <= s * SEC
    ensures var h1 := h + [Mark(s * SEC, px)];
            && Chronological(h1) && !Ordered(h1)
            && s in Run(false, h1).log && Run(false, h1).log[s] == Run(false, h).log[s]
            && SampleAt(h1, s) == px
            && (Run(false, h1).log[s].mark == SampleAt(h1, s) <==> Run(false, h).log[s].mark == px)
  {
    var e := Mark(s * SEC, px);
    InstantKeepsSecond(h, e, s);
    assert (h + [e])[..|h|] == h;
  }

  /** Nor does a perp quote: the second is right in its ratio exactly when that repeats it. */
  lemma PerpAtQueriedInstant(h: seq<Event>, s: int, sum: int)
    requires Chronological(h) && s in Run(false, h).log && 0 < sum
    requires forall i :: 0 <= i < |h| ==> h[i].wall <= s * SEC
    ensures var h1 := h + [Perp(s * SEC, sum)];
            && Chronological(h1) && !Ordered(h1)
            && s in Run(false, h1).log && Run(false, h1).log[s] == Run(false, h).log[s]
            && SampleAt(h1, s) == SampleAt(h, s) && RatioAt(h1, s) == RatioOf(SampleAt(h, s), sum)
            && (Run(false, h1).log[s].ratio == RatioAt(h1, s)
                <==> Run(false, h).log[s].ratio == RatioOf(SampleAt(h, s), sum))
  {
    var e := Perp(s * SEC, sum);
    InstantKeepsSecond(h, e, s);
    assert (h + [e])[..|h|] == h;
  }

  lemma InstantKeepsSecond(h: seq<Event>, e: Event, s: int)
    requires Chronological(h) && s in Run(false, h).log && !e.Query? && !Ignored(e) && e.wall == s * SEC
    requires forall i :: 0 <= i < |h| ==> h[i].wall <= s * SEC
    ensures var h1 := h + [e];
            Chronological(h1) && !Ordered(h1)
            && s in Run(false, h1).log && Run(false, h1).log[s] == Run(false, h).log[s]
  {
    var h1 := h + [e];
    assert h1[..|h1| - 1] == h;
    StaysPending(h);
    AdvanceShape(false, Run(false, h), Before(e.wall));
    AdvanceSamples(h, Run(false, h), Before(e.wall));
    if Ordered(h1) {
      FrontierBehind(false, h, e.wall);
    }
  }
}
