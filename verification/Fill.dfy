/** Gap-filling one series from a venue that answers pages honestly, whose history grows at its end and
    whose bars change until they close: forward, stored page by page, and OKX's backward walk, stored
    only when it connects. */
module Fill {
  import opened Options
  import opened Fixed
  import opened Sealing
  import opened CandleStore

  const OKX_PAGE_LIMIT: nat := 100

  // -- the venue ---------------------------------------------------------

  /** Bars of `ms` milliseconds, oldest first, none overlapping the next. */
  predicate Spaced(bars: seq<Bar>, ms: int) {
    forall i, j :: 0 <= i < j < |bars| ==> bars[i].ts + ms <= bars[j].ts
  }

  /** How many bars open before `t`: the index of the first that does not. */
  function FirstAt(bars: seq<Bar>, t: int): (i: nat)
    ensures i <= |bars|
  {
    if bars == [] || t <= bars[0].ts then 0 else 1 + FirstAt(bars[1..], t)
  }

  lemma InOrder(bars: seq<Bar>, ms: int, i: nat, j: nat)
    requires Spaced(bars, ms) && i < |bars| && j < |bars|
    ensures i < j ==> bars[i].ts + ms <= bars[j].ts
    ensures j < i ==> bars[j].ts + ms <= bars[i].ts
  {
  }

  /** The first `n` bars are the ones that open before `t`. */
  predicate Splits(bars: seq<Bar>, t: int, n: nat) {
    n <= |bars| && forall i :: 0 <= i < |bars| ==> (i < n <==> bars[i].ts < t)
  }

  lemma {:induction false} FirstAtSplits(bars: seq<Bar>, ms: int, t: int)
    requires 0 < ms && Spaced(bars, ms)
    ensures Splits(bars, t, FirstAt(bars, t))
  {
    if bars != [] && bars[0].ts < t {
      FirstAtSplits(bars[1..], ms, t);
      forall i | 0 <= i < |bars|
        ensures i < FirstAt(bars, t) <==> bars[i].ts < t
      {
        if i > 0 {
          assert bars[i] == bars[1..][i - 1];
        }
      }
    }
  }

  lemma FirstAtUnique(bars: seq<Bar>, ms: int, t: int, n: nat)
    requires 0 < ms && Spaced(bars, ms) && Splits(bars, t, n)
    ensures FirstAt(bars, t) == n
  {
    FirstAtSplits(bars, ms, t);
    var f := FirstAt(bars, t);
    assert f < |bars| ==> (f < n <==> bars[f].ts < t);
    assert n < |bars| ==> (n < f <==> bars[n].ts < t);
  }

  predicate PageAt(bars: seq<Bar>, f: nat, page: seq<Bar>) {
    f + |page| <= |bars| && forall j :: 0 <= j < |page| ==> page[j] == bars[f + j]
  }

  /** The oldest of the bars from `lo` on, without a gap. */
  ghost predicate ForwardPage(bars: seq<Bar>, lo: int, page: seq<Bar>) {
    forall x: Seal {:trigger Opened(x)} :: PageAt(bars, FirstAt(bars, lo), page)
  }

  /** The newest of the bars that open before `after`, oldest first, at most a limit. */
  ghost predicate BackwardPage(bars: seq<Bar>, after: int, page: seq<Bar>) {
    forall x: Seal {:trigger Opened(x)} ::
      var e := FirstAt(bars, after);
      page == bars[if e <= OKX_PAGE_LIMIT then 0 else e - OKX_PAGE_LIMIT..e]
  }

  /** The venue at a point in time. */
  datatype Moment = Moment(bars: seq<Bar>, clock: int)

  /** No bar overlaps the next or opens ahead of the clock. */
  ghost predicate Good(v: Moment, ms: int) {
    0 < ms && Spaced(v.bars, ms) && forall i :: 0 <= i < |v.bars| ==> v.bars[i].ts <= v.clock
  }

  /** The same bars by their opens, with more at the end. */
  ghost predicate Grown(a: seq<Bar>, b: seq<Bar>) {
    |a| <= |b| && forall i :: 0 <= i < |a| ==> b[i].ts == a[i].ts
  }

  /** Time passes: bars appear after the newest one, and a bar changes only if it had not closed. */
  ghost predicate Later(v: Moment, w: Moment, ms: int) {
    forall x: Seal {:trigger Opened(x)} ::
      && v.clock <= w.clock && Grown(v.bars, w.bars)
      && forall i :: 0 <= i < |v.bars| && v.bars[i].ts + ms <= v.clock ==> w.bars[i] == v.bars[i]
  }

  lemma LaterItself(v: Moment, ms: int)
    ensures Later(v, v, ms)
  {
  }

  lemma LaterTrans(u: Moment, v: Moment, w: Moment, ms: int)
    requires Later(u, v, ms) && Later(v, w, ms)
    ensures Later(u, w, ms)
  {
    assert Opened(Seal);
  }

  lemma LaterGrown(v: Moment, w: Moment, ms: int)
    requires Later(v, w, ms)
    ensures Grown(v.bars, w.bars) && v.clock <= w.clock
  {
    assert Opened(Seal);
  }

  lemma NoneBetween(bars: seq<Bar>, ms: int, f: nat, lo: int, hi: int)
    requires 0 < ms && Spaced(bars, ms) && Splits(bars, lo, f) && (f == |bars| || hi < bars[f].ts)
    ensures Stretch(bars, lo, hi + 1) == {}
  {
    forall i | 0 <= i < |bars|
      ensures !(lo <= bars[i].ts <= hi)
    {
      if f < |bars| {
        InOrder(bars, ms, i, f);
      }
    }
  }

  lemma EmptyPage(bars: seq<Bar>, lo: int)
    ensures ForwardPage(bars, lo, [])
  {
  }

  lemma PageUpTo(bars: seq<Bar>, lo: int, e: nat)
    requires FirstAt(bars, lo) <= e <= |bars|
    ensures ForwardPage(bars, lo, bars[FirstAt(bars, lo)..e])
  {
  }

  class Venue {
    const ms: int
    var bars: seq<Bar>
    var clock: int
    /** How many pages were asked for, and how many of those requests failed. */
    var requests: nat
    var failures: nat

    ghost predicate Valid()
      reads this
    {
      forall x: Seal {:trigger Opened(x)} :: Good(Now(), ms)
    }

    lemma IsGood()
      requires Valid()
      ensures Good(Now(), ms)
    {
      assert Opened(Seal);
    }

    function Now(): Moment
      reads this
    {
      Moment(bars, clock)
    }

    constructor (ms: int, clock: int)
      requires 0 < ms
      ensures Valid() && this.ms == ms && Now() == Moment([], clock) && requests == failures == 0
    {
      this.ms := ms;
      this.clock := clock;
      bars, requests, failures := [], 0, 0;
    }

    /** Time passes. */
    method Grow()
      requires Valid()
      modifies this`bars, this`clock
      ensures Valid() && Later(old(Now()), Now(), ms)
    {
      IsGood();
      LaterItself(Now(), ms);
      ghost var before := Now();
      var changed: seq<Bar>, more: seq<Bar>, t: int := *, *, *;
      var i := 0;
      var next: seq<Bar> := [];
      while i < |bars|
        invariant 0 <= i <= |bars| && |next| == i
        invariant forall j :: 0 <= j < i ==> next[j].ts == bars[j].ts
        invariant forall j :: 0 <= j < i && bars[j].ts + ms <= clock ==> next[j] == bars[j]
      {
        var b := bars[i];
        next := next + [if i < |changed| && clock < b.ts + ms then Bar(b.ts, changed[i].bar) else b];
        i := i + 1;
      }
      next := next + more;
      if clock <= t && Spaced(next, ms) && forall j :: 0 <= j < |next| ==> next[j].ts <= t {
        bars, clock := next, t;
        assert Grown(before.bars, next);
      }
    }

    /** A forward page, as long as the venue cares to make it, but empty only when no bar opens in
        `[lo, hi]`; None is a transport or parse failure. */
    method Forward(lo: int, hi: int) returns (page: Option<seq<Bar>>)
      requires Valid()
      modifies this
      ensures Valid() && Later(old(Now()), Now(), ms)
      ensures page.Some? ==> ForwardPage(bars, lo, page.value)
      ensures page.Some? && page.value == [] ==> Stretch(bars, lo, hi + 1) == {}
      ensures failures == old(failures) + (if page.None? then 1 else 0) && requests == old(requests) + 1
    {
      Grow();
      IsGood();
      requests := requests + 1;
      var fails: bool := *;
      if fails {
        failures := failures + 1;
        return None;
      }
      var f := FirstAt(bars, lo);
      FirstAtSplits(bars, ms, lo);
      var n: int := *;
      if n <= 0 && (f == |bars| || hi < bars[f].ts) {
        NoneBetween(bars, ms, f, lo, hi);
        EmptyPage(bars, lo);
        return Some([]);
      }
      var e := if 1 <= n <= |bars| - f then f + n else |bars|;
      PageUpTo(bars, lo, e);
      return Some(bars[f..e]);
    }

    /** A backward page; None is a transport or parse failure. */
    method Backward(after: int) returns (page: Option<seq<Bar>>)
      requires Valid()
      modifies this
      ensures Valid() && Later(old(Now()), Now(), ms)
      ensures page.Some? ==> BackwardPage(bars, after, page.value)
      ensures failures == old(failures) + (if page.None? then 1 else 0) && requests == old(requests) + 1
    {
      Grow();
      IsGood();
      requests := requests + 1;
      var fails: bool := *;
      if fails {
        failures := failures + 1;
        return None;
      }
      var e := FirstAt(bars, after);
      return Some(bars[if e <= OKX_PAGE_LIMIT then 0 else e - OKX_PAGE_LIMIT..e]);
    }
  }

  // -- no hole -----------------------------------------------------------

  function Times(bars: seq<Bar>): set<int> { set i | 0 <= i < |bars| :: bars[i].ts }

  /** Everything stored is the venue's, and between two stored bars the venue has none missing. */
  ghost predicate NoHole(opens: set<int>, bars: seq<Bar>) {
    && opens <= Times(bars)
    && forall lo, hi, t :: lo in opens && hi in opens && t in Times(bars) && lo <= t <= hi ==> t in opens
  }

  ghost predicate IsMax(opens: set<int>, m: Option<int>) {
    && (m.None? <==> opens == {})
    && (m.Some? ==> m.value in opens && forall x :: x in opens ==> x <= m.value)
  }

  method MaxOpen(t: Tables, series: nat, tf: Tf) returns (m: Option<int>)
    ensures IsMax(Opens(t, series, tf), m)
  {
    var todo := Opens(t, series, tf);
    m := None;
    while todo != {}
      invariant todo <= Opens(t, series, tf)
      invariant m.None? <==> todo == Opens(t, series, tf)
      invariant m.Some? ==> m.value in Opens(t, series, tf)
      invariant m.Some? ==> forall x :: x in Opens(t, series, tf) && x !in todo ==> x <= m.value
      decreases |todo|
    {
      var x :| x in todo;
      m := if m.None? || m.value < x then Some(x) else m;
      todo := todo - {x};
    }
  }

  lemma PrefixTimes(a: seq<Bar>, b: seq<Bar>)
    requires Grown(a, b)
    ensures Times(a) <= Times(b)
  {
    forall t | t in Times(a)
      ensures t in Times(b)
    {
      var i :| 0 <= i < |a| && a[i].ts == t;
      assert b[i].ts == a[i].ts;
    }
  }

  /** Growth at the end opens no hole behind the frontier. */
  lemma GrowthKeepsNoHole(opens: set<int>, a: seq<Bar>, b: seq<Bar>, ms: int)
    requires 0 < ms && Spaced(b, ms) && Grown(a, b) && NoHole(opens, a)
    ensures NoHole(opens, b)
  {
    PrefixTimes(a, b);
    forall lo, hi, t | lo in opens && hi in opens && t in Times(b) && lo <= t <= hi
      ensures t in opens
    {
      var i :| 0 <= i < |b| && b[i].ts == t;
      var j :| 0 <= j < |a| && a[j].ts == hi;
      assert b[j].ts == a[j].ts;
      InOrder(b, ms, i, j);
      assert a[i].ts == b[i].ts;
    }
  }

  /** `lo` is at or past the stored frontier, with nothing of the venue between the two. */
  ghost predicate Joins(opens: set<int>, m: Option<int>, bars: seq<Bar>, lo: int) {
    && IsMax(opens, m)
    && (m.Some? ==> m.value <= lo && forall t :: t in Times(bars) && m.value < t ==> lo <= t)
  }

  /** The opens of the venue's bars in `[lo, e)`. */
  function Stretch(bars: seq<Bar>, lo: int, e: int): set<int> {
    set i | 0 <= i < |bars| && lo <= bars[i].ts < e :: bars[i].ts
  }

  /** Storing a stretch of the venue's bars that joins the frontier leaves no hole. */
  lemma StretchKeepsNoHole(opens: set<int>, m: Option<int>, bars: seq<Bar>, lo: int, e: int)
    requires NoHole(opens, bars) && Joins(opens, m, bars, lo)
    ensures NoHole(opens + Stretch(bars, lo, e), bars)
  {
    var more := opens + Stretch(bars, lo, e);
    forall a, b, t | a in more && b in more && t in Times(bars) && a <= t <= b
      ensures t in more
    {
      var i :| 0 <= i < |bars| && bars[i].ts == t;
      if lo <= t < e {
        assert bars[i].ts in Stretch(bars, lo, e);
      } else if t < lo {
        assert a in opens && m.Some?;
        assert t <= m.value;
      } else {
        assert b in opens;
      }
    }
  }

  // -- forward -----------------------------------------------------------

  datatype Outcome = Done | BudgetOut | Failed

  /** The frontier after a stretch that stored up to a bar of the venue. */
  lemma JoinsAfter(opens: set<int>, bars: seq<Bar>, ms: int, i: nat)
    requires 0 < ms && Spaced(bars, ms) && i < |bars|
    requires bars[i].ts in opens && forall x :: x in opens ==> x <= bars[i].ts
    ensures Joins(opens, Some(bars[i].ts), bars, bars[i].ts + ms)
  {
    forall t | t in Times(bars) && bars[i].ts < t
      ensures bars[i].ts + ms <= t
    {
      var j :| 0 <= j < |bars| && bars[j].ts == t;
      assert j < i ==> bars[j].ts + ms <= bars[i].ts;
      assert i < j ==> bars[i].ts + ms <= bars[j].ts;
    }
  }

  lemma JoinsGrown(opens: set<int>, m: Option<int>, a: seq<Bar>, b: seq<Bar>, ms: int, lo: int)
    requires 0 < ms && Spaced(b, ms) && Grown(a, b) && NoHole(opens, a) && Joins(opens, m, a, lo)
    requires m.Some? ==> lo == m.value || lo == m.value + ms
    ensures Joins(opens, m, b, lo)
  {
    if m.Some? {
      var j :| 0 <= j < |a| && a[j].ts == m.value;
      assert b[j].ts == a[j].ts;
      forall t | t in Times(b) && m.value < t
        ensures lo <= t
      {
        var i :| 0 <= i < |b| && b[i].ts == t;
        assert i < j ==> b[i].ts + ms <= b[j].ts;
        assert j < i ==> b[j].ts + ms <= b[i].ts;
      }
    }
  }

  /** A page from `lo`, cut at the latest open accepted, is a stretch of the venue. */
  lemma PageIsStretch(bars: seq<Bar>, ms: int, lo: int, page: seq<Bar>, latest: int) returns (end: nat)
    requires 0 < ms && Spaced(bars, ms) && page != [] && ForwardPage(bars, lo, page)
    ensures end < |bars| && bars[end] == page[|page| - 1] && lo <= bars[end].ts
    ensures Accepted(page, latest, |page|) == Stretch(bars, lo, Min(bars[end].ts, latest) + 1)
  {
    assert PageAt(bars, FirstAt(bars, lo), page) by {
      assert Opened(Seal);
    }
    FirstAtSplits(bars, ms, lo);
    end := PageOpens(bars, ms, lo, FirstAt(bars, lo), page, latest);
  }

  lemma PageOpens(bars: seq<Bar>, ms: int, lo: int, f: nat, page: seq<Bar>, latest: int) returns (end: nat)
    requires 0 < ms && Spaced(bars, ms) && page != [] && PageAt(bars, f, page) && Splits(bars, lo, f)
    ensures end < |bars| && bars[end] == page[|page| - 1] && lo <= bars[end].ts
    ensures Accepted(page, latest, |page|) == Stretch(bars, lo, Min(bars[end].ts, latest) + 1)
  {
    end := f + |page| - 1;
    AcceptedInStretch(bars, ms, lo, f, page, latest);
    StretchIsAccepted(bars, ms, lo, f, page, latest);
  }

  lemma AcceptedInStretch(bars: seq<Bar>, ms: int, lo: int, f: nat, page: seq<Bar>, latest: int)
    requires 0 < ms && Spaced(bars, ms) && page != [] && PageAt(bars, f, page) && Splits(bars, lo, f)
    ensures Accepted(page, latest, |page|) <= Stretch(bars, lo, Min(bars[f + |page| - 1].ts, latest) + 1)
  {
    forall x | x in Accepted(page, latest, |page|)
      ensures x in Stretch(bars, lo, Min(bars[f + |page| - 1].ts, latest) + 1)
    {
      var j :| 0 <= j < |page| && page[j].ts <= latest && page[j].ts == x;
      assert page[j] == bars[f + j];
      InOrder(bars, ms, f + j, f + |page| - 1);
    }
  }

  lemma StretchIsAccepted(bars: seq<Bar>, ms: int, lo: int, f: nat, page: seq<Bar>, latest: int)
    requires 0 < ms && Spaced(bars, ms) && page != [] && PageAt(bars, f, page) && Splits(bars, lo, f)
    ensures Stretch(bars, lo, Min(bars[f + |page| - 1].ts, latest) + 1) <= Accepted(page, latest, |page|)
  {
    var end := f + |page| - 1;
    forall x | x in Stretch(bars, lo, Min(bars[end].ts, latest) + 1)
      ensures x in Accepted(page, latest, |page|)
    {
      var i :| 0 <= i < |bars| && lo <= bars[i].ts < Min(bars[end].ts, latest) + 1 && bars[i].ts == x;
      InOrder(bars, ms, i, end);
      assert page[i - f] == bars[i];
    }
  }

  /** Everything the venue has from `start` up to any stored bar is stored. */
  ghost predicate FilledFrom(opens: set<int>, bars: seq<Bar>, start: int) {
    forall x, t :: x in opens && t in Times(bars) && start <= t <= x ==> t in opens
  }

  lemma GrowthKeepsFilled(opens: set<int>, a: seq<Bar>, b: seq<Bar>, ms: int, start: int)
    requires 0 < ms && Spaced(b, ms) && Grown(a, b) && opens <= Times(a) && FilledFrom(opens, a, start)
    ensures FilledFrom(opens, b, start)
  {
    forall x, t | x in opens && t in Times(b) && start <= t <= x
      ensures t in opens
    {
      var i :| 0 <= i < |b| && b[i].ts == t;
      var j :| 0 <= j < |a| && a[j].ts == x;
      assert b[j].ts == a[j].ts;
      InOrder(b, ms, i, j);
      assert a[i].ts == b[i].ts;
    }
  }

  lemma StretchKeepsFilled(opens: set<int>, m: Option<int>, bars: seq<Bar>, lo: int, e: int, start: int)
    requires FilledFrom(opens, bars, start) && Joins(opens, m, bars, lo) && (m.None? ==> lo == start)
    ensures FilledFrom(opens + Stretch(bars, lo, e), bars, start)
  {
    var more := opens + Stretch(bars, lo, e);
    forall x, t | x in more && t in Times(bars) && start <= t <= x
      ensures t in more
    {
      var i :| 0 <= i < |bars| && bars[i].ts == t;
      if lo <= t < e {
        assert bars[i].ts in Stretch(bars, lo, e);
      } else if t < lo {
        assert m.Some? && t <= m.value;
      } else {
        assert x in opens;
      }
    }
  }

  // -- the fill's invariant ----------------------------------------------

  /** No hole, and for a series that was empty nothing missing from `start` on. */
  ghost predicate Sane(opens: set<int>, bars: seq<Bar>, start: Option<int>) {
    forall x: Seal {:trigger Opened(x)} ::
      NoHole(opens, bars) && (start.Some? ==> FilledFrom(opens, bars, start.value))
  }

  /** Sane, with `lo` the place to go on from: the frontier `m` itself, one bar past it, or the
      start of an empty series. */
  ghost predicate Front(opens: set<int>, m: Option<int>, bars: seq<Bar>, ms: int, lo: int, start: Option<int>) {
    forall x: Seal {:trigger Opened(x)} ::
      && Sane(opens, bars, start) && Joins(opens, m, bars, lo)
      && (m.Some? ==> lo == m.value || lo == m.value + ms)
      && (m.None? ==> start == Some(lo))
  }

  /** Where a fill begins when nothing is stored. */
  ghost function StartOf(opens: set<int>, start: int): Option<int> { if opens == {} then Some(start) else None }

  lemma FrontIsSane(opens: set<int>, m: Option<int>, bars: seq<Bar>, ms: int, lo: int, start: Option<int>)
    requires Front(opens, m, bars, ms, lo, start)
    ensures Sane(opens, bars, start)
  {
    assert Opened(Seal);
  }

  lemma FrontBegins(opens: set<int>, m: Option<int>, bars: seq<Bar>, ms: int, start: int)
    requires NoHole(opens, bars) && IsMax(opens, m)
    ensures var lo := if m.Some? then m.value else start;
            Front(opens, m, bars, ms, lo, StartOf(opens, start))
  {
  }

  lemma FrontGrows(opens: set<int>, m: Option<int>, a: seq<Bar>, b: seq<Bar>, ms: int, lo: int, start: Option<int>)
    requires 0 < ms && Spaced(b, ms) && Grown(a, b) && Front(opens, m, a, ms, lo, start)
    ensures Front(opens, m, b, ms, lo, start)
  {
    assert Opened(Seal);
    GrowthKeepsNoHole(opens, a, b, ms);
    JoinsGrown(opens, m, a, b, ms, lo);
    if start.Some? {
      GrowthKeepsFilled(opens, a, b, ms, start.value);
    }
  }

  /** A stretch from `lo` keeps the store sane, and up to a bar of the venue moves the front past it. */
  lemma FrontMoves(opens: set<int>, m: Option<int>, bars: seq<Bar>, ms: int, lo: int, start: Option<int>, e: int)
    requires 0 < ms && Spaced(bars, ms) && Front(opens, m, bars, ms, lo, start)
    ensures Sane(opens + Stretch(bars, lo, e), bars, start)
  {
    assert Opened(Seal);
    StretchKeepsNoHole(opens, m, bars, lo, e);
    if start.Some? {
      StretchKeepsFilled(opens, m, bars, lo, e, start.value);
    }
  }

  lemma FrontReaches(opens: set<int>, m: Option<int>, bars: seq<Bar>, ms: int, lo: int, start: Option<int>, i: nat)
    requires 0 < ms && Spaced(bars, ms) && Front(opens, m, bars, ms, lo, start) && i < |bars| && lo <= bars[i].ts
    ensures Front(opens + Stretch(bars, lo, bars[i].ts + 1), Some(bars[i].ts), bars, ms, bars[i].ts + ms, start)
  {
    FrontMoves(opens, m, bars, ms, lo, start, bars[i].ts + 1);
    assert Opened(Seal);
    assert bars[i].ts in Stretch(bars, lo, bars[i].ts + 1);
    JoinsAfter(opens + Stretch(bars, lo, bars[i].ts + 1), bars, ms, i);
  }

  /** What a page does to the front. */
  lemma FrontPages(opens: set<int>, m: Option<int>, bars: seq<Bar>, ms: int, lo: int, start: Option<int>,
                   page: seq<Bar>, latest: int)
    requires 0 < ms && Spaced(bars, ms) && Front(opens, m, bars, ms, lo, start)
    requires page != [] && ForwardPage(bars, lo, page)
    ensures Sane(opens + Accepted(page, latest, |page|), bars, start)
    ensures lo <= page[|page| - 1].ts
    ensures page[|page| - 1].ts <= latest ==>
              Front(opens + Accepted(page, latest, |page|), Some(page[|page| - 1].ts), bars, ms,
                    page[|page| - 1].ts + ms, start)
  {
    var end := PageIsStretch(bars, ms, lo, page, latest);
    FrontMoves(opens, m, bars, ms, lo, start, Min(bars[end].ts, latest) + 1);
    if bars[end].ts <= latest {
      assert Min(bars[end].ts, latest) == bars[end].ts;
      FrontReaches(opens, m, bars, ms, lo, start, end);
    }
  }

  method StorePage(store: Store, series: nat, tf: Tf, page: seq<Bar>, now: int, fetched: Option<int>)
    modifies store
    ensures store.tables == RestAll(old(store.tables), series, tf, page, now, LatestOpen(now, fetched))
    ensures Opens(store.tables, series, tf)
            == Opens(old(store.tables), series, tf) + Accepted(page, LatestOpen(now, fetched), |page|)
  {
    RestOpens(store.tables, series, tf, page, now, LatestOpen(now, fetched), |page|);
    var _ := store.UpsertRest(series, tf, page, now, fetched);
  }

  datatype Step = Stop(outcome: Outcome) | Go(lo: int)

  // -- final values ------------------------------------------------------

  /** If it is stored behind `lo`, or frozen, the bar has closed by `clock` and is stored as it is. */
  ghost predicate RightBar(t: Tables, k: Key, bar: Ohlcv, clock: int, lo: int) {
    k in t.rows && (k.open < lo || Frozen(t, k)) ==> t.rows[k].bar == bar && k.open + TfMs(k.tf) <= clock
  }

  /** So it is with every bar of the venue. */
  ghost predicate Right(t: Tables, series: nat, tf: Tf, v: Moment, lo: int) {
    forall x: Seal {:trigger Opened(x)} ::
      forall i :: 0 <= i < |v.bars| ==> RightBar(t, Key(series, tf, v.bars[i].ts), v.bars[i].bar, v.clock, lo)
  }

  /** Every stored bar behind another one is final: it has closed, and is stored with the venue's values. */
  ghost predicate Final(t: Tables, series: nat, tf: Tf, v: Moment) {
    forall x: Seal {:trigger Opened(x)} :: forall y :: y in Opens(t, series, tf) ==> Right(t, series, tf, v, y)
  }

  lemma RightBelow(t: Tables, series: nat, tf: Tf, v: Moment, lo: int, lower: int)
    requires Right(t, series, tf, v, lo) && lower <= lo
    ensures Right(t, series, tf, v, lower)
  {
    assert Opened(Seal);
  }

  lemma RightIsFinal(t: Tables, series: nat, tf: Tf, v: Moment, lo: int)
    requires Right(t, series, tf, v, lo) && forall y :: y in Opens(t, series, tf) ==> y <= lo
    ensures Final(t, series, tf, v)
  {
    forall y | y in Opens(t, series, tf)
      ensures Right(t, series, tf, v, y)
    {
      RightBelow(t, series, tf, v, lo, y);
    }
  }

  lemma StoredIsOpen(t: Tables, k: Key)
    ensures k in t.rows <==> k.open in Opens(t, k.series, k.tf)
  {
    if k.open in Opens(t, k.series, k.tf) {
      var j :| j in t.rows && j.series == k.series && j.tf == k.tf && j.open == k.open;
      assert j == k;
    }
  }

  /** Nothing stored, nothing wrong. */
  lemma RightWhenEmpty(t: Tables, series: nat, tf: Tf, v: Moment, lo: int)
    requires Opens(t, series, tf) == {}
    ensures Right(t, series, tf, v, lo)
  {
    forall i | 0 <= i < |v.bars|
      ensures RightBar(t, Key(series, tf, v.bars[i].ts), v.bars[i].bar, v.clock, lo)
    {
      StoredIsOpen(t, Key(series, tf, v.bars[i].ts));
    }
  }

  /** A closed bar does not change, and what appears later is not stored yet. */
  lemma RightLater(t: Tables, series: nat, tf: Tf, v: Moment, w: Moment, lo: int)
    requires Right(t, series, tf, v, lo) && Later(v, w, TfMs(tf)) && Good(w, TfMs(tf))
    requires Opens(t, series, tf) <= Times(v.bars)
    ensures Right(t, series, tf, w, lo)
  {
    assert Opened(Seal);
    forall i | 0 <= i < |w.bars|
      ensures RightBar(t, Key(series, tf, w.bars[i].ts), w.bars[i].bar, w.clock, lo)
    {
      var k := Key(series, tf, w.bars[i].ts);
      if i < |v.bars| {
        assert RightBar(t, Key(series, tf, v.bars[i].ts), v.bars[i].bar, v.clock, lo);
      } else {
        StoredIsOpen(t, k);
        NotYetThere(v.bars, w.bars, TfMs(tf), i);
      }
    }
  }

  lemma NotYetThere(a: seq<Bar>, b: seq<Bar>, ms: int, i: nat)
    requires 0 < ms && Spaced(b, ms) && Grown(a, b) && |a| <= i < |b|
    ensures b[i].ts !in Times(a)
  {
    forall j | 0 <= j < |a|
      ensures a[j].ts != b[i].ts
    {
      InOrder(b, ms, j, i);
    }
  }

  // -- what a page leaves ------------------------------------------------

  ghost predicate Ascending(page: seq<Bar>) { forall i, j :: 0 <= i < j < |page| ==> page[i].ts < page[j].ts }

  /** A key no bar of the page has is left alone. */
  lemma {:induction false} RestOther(t: Tables, series: nat, tf: Tf, page: seq<Bar>, now: int, latest: int, n: nat,
                                     k: Key)
    requires n <= |page| && forall j :: 0 <= j < n ==> Key(series, tf, page[j].ts) != k || page[j].ts > latest
    ensures Lookup(RestUpTo(t, series, tf, page, now, latest, n), k) == Lookup(t, k)
  {
    if n > 0 {
      RestOther(t, series, tf, page, now, latest, n - 1, k);
    }
  }

  /** A bar that is not refused ends up stored with its values, unless a frozen row disagreed. */
  lemma {:induction false} RestValue(t: Tables, series: nat, tf: Tf, page: seq<Bar>, now: int, latest: int, n: nat,
                                     i: nat)
    requires i < n <= |page| && Ascending(page) && page[i].ts <= latest
    requires var k := Key(series, tf, page[i].ts); Frozen(t, k) ==> t.rows[k].bar == page[i].bar
    ensures var u, k := RestUpTo(t, series, tf, page, now, latest, n), Key(series, tf, page[i].ts);
            && k in u.rows && u.rows[k].bar == page[i].bar
            && (Frozen(u, k) ==> Frozen(t, k) || k.open + TfMs(tf) <= now)
  {
    var k := Key(series, tf, page[i].ts);
    if n == i + 1 {
      RestOther(t, series, tf, page, now, latest, i, k);
      var u := RestUpTo(t, series, tf, page, now, latest, i);
      assert k in u.rows <==> Lookup(u, k).Some?;
      assert k in t.rows <==> Lookup(t, k).Some?;
    } else {
      RestValue(t, series, tf, page, now, latest, n - 1, i);
    }
  }

  /** What holds of a page, the venue and the table it goes into. */
  ghost predicate Fits(t: Tables, series: nat, tf: Tf, v: Moment, lo: int, f: nat, page: seq<Bar>, now: int) {
    && Good(v, TfMs(tf)) && now <= v.clock && page != [] && PageAt(v.bars, f, page) && Splits(v.bars, lo, f)
    && Right(t, series, tf, v, lo) && (forall y :: y in Opens(t, series, tf) ==> y <= lo)
  }

  lemma PageAscends(bars: seq<Bar>, ms: int, f: nat, page: seq<Bar>)
    requires 0 < ms && Spaced(bars, ms) && PageAt(bars, f, page)
    ensures Ascending(page)
  {
    forall i, j | 0 <= i < j < |page|
      ensures page[i].ts < page[j].ts
    {
      InOrder(bars, ms, f + i, f + j);
    }
  }

  /** The bar at `i`, once the page is stored, right up to `upto`. */
  lemma PageBar(t: Tables, series: nat, tf: Tf, v: Moment, lo: int, f: nat, page: seq<Bar>, now: int, latest: int,
                upto: int, i: nat)
    requires Fits(t, series, tf, v, lo, f, page, now) && (lo <= latest || upto <= lo) && i < |v.bars|
    requires upto <= page[|page| - 1].ts || (upto <= page[|page| - 1].ts + TfMs(tf) <= now)
    ensures RightBar(RestAll(t, series, tf, page, now, latest), Key(series, tf, v.bars[i].ts), v.bars[i].bar,
                     v.clock, upto)
  {
    var ms, n, k := TfMs(tf), |page|, Key(series, tf, v.bars[i].ts);
    assert RightBar(t, k, v.bars[i].bar, v.clock, lo) by {
      assert Opened(Seal);
    }
    PageAscends(v.bars, ms, f, page);
    StoredIsOpen(t, k);
    if f <= i < f + n && v.bars[i].ts <= latest {
      assert page[i - f] == v.bars[i];
      RestValue(t, series, tf, page, now, latest, n, i - f);
      InOrder(v.bars, ms, i, f + n - 1);
      assert page[n - 1] == v.bars[f + n - 1];
    } else {
      forall j | 0 <= j < n
        ensures Key(series, tf, page[j].ts) != k || page[j].ts > latest
      {
        assert page[j] == v.bars[f + j];
        InOrder(v.bars, ms, f + j, i);
      }
      RestOther(t, series, tf, page, now, latest, n, k);
      Unstored(t, RestAll(t, series, tf, page, now, latest), k);
    }
  }

  lemma Unstored(t: Tables, u: Tables, k: Key)
    requires Lookup(u, k) == Lookup(t, k)
    ensures k in u.rows <==> k in t.rows
    ensures k in t.rows ==> u.rows[k] == t.rows[k] && (Frozen(u, k) <==> Frozen(t, k))
  {
  }

  /** Storing a page from `lo` leaves every bar before its last one right, and its last one too if that
      had closed when the cycle began. */
  lemma PageRight(t: Tables, series: nat, tf: Tf, v: Moment, lo: int, f: nat, page: seq<Bar>, now: int, latest: int,
                  upto: int)
    requires Fits(t, series, tf, v, lo, f, page, now) && (lo <= latest || upto <= lo)
    requires upto <= page[|page| - 1].ts || (upto <= page[|page| - 1].ts + TfMs(tf) <= now)
    ensures Right(RestAll(t, series, tf, page, now, latest), series, tf, v, upto)
  {
    forall i | 0 <= i < |v.bars|
      ensures RightBar(RestAll(t, series, tf, page, now, latest), Key(series, tf, v.bars[i].ts), v.bars[i].bar,
                       v.clock, upto)
    {
      PageBar(t, series, tf, v, lo, f, page, now, latest, upto, i);
    }
  }

  // -- forward, page by page ---------------------------------------------

  lemma FrontBelow(opens: set<int>, m: Option<int>, bars: seq<Bar>, ms: int, lo: int, start: Option<int>)
    requires Front(opens, m, bars, ms, lo, start)
    ensures opens <= Times(bars) && forall y :: y in opens ==> y <= lo
  {
    assert Opened(Seal);
  }

  /** Final values are right up to the frontier. */
  lemma FinalBegins(t: Tables, series: nat, tf: Tf, v: Moment, m: Option<int>, start: int)
    requires Final(t, series, tf, v) && IsMax(Opens(t, series, tf), m)
    ensures Right(t, series, tf, v, if m.Some? then m.value else start)
  {
    assert Opened(Seal);
    if m.None? {
      RightWhenEmpty(t, series, tf, v, start);
    }
  }

  /** Time passes and nothing is stored. */
  lemma StaysFinal(t: Tables, series: nat, tf: Tf, v: Moment, w: Moment, lo: int, m: Option<int>, start: Option<int>)
    requires Right(t, series, tf, v, lo) && Later(v, w, TfMs(tf)) && Good(w, TfMs(tf))
    requires Front(Opens(t, series, tf), m, v.bars, TfMs(tf), lo, start)
    ensures Right(t, series, tf, w, lo) && Final(t, series, tf, w)
  {
    FrontBelow(Opens(t, series, tf), m, v.bars, TfMs(tf), lo, start);
    RightLater(t, series, tf, v, w, lo);
    RightIsFinal(t, series, tf, w, lo);
  }

  /** A page is stored. */
  lemma PageFinal(t: Tables, series: nat, tf: Tf, v: Moment, lo: int, f: nat, page: seq<Bar>, now: int, latest: int)
    requires Fits(t, series, tf, v, lo, f, page, now)
    ensures Final(RestAll(t, series, tf, page, now, latest), series, tf, v)
  {
    var u, last := RestAll(t, series, tf, page, now, latest), page[|page| - 1].ts;
    var upto := if lo <= latest then last else lo;
    assert page[0] == v.bars[f] && page[|page| - 1] == v.bars[f + |page| - 1];
    PageAscends(v.bars, TfMs(tf), f, page);
    PageRight(t, series, tf, v, lo, f, page, now, latest, Min(upto, last));
    RestOpens(t, series, tf, page, now, latest, |page|);
    forall y | y in Opens(u, series, tf)
      ensures Right(u, series, tf, v, y)
    {
      assert y in Opens(t, series, tf) || y in Accepted(page, latest, |page|);
      RightBelow(u, series, tf, v, Min(upto, last), y);
    }
  }

  /** What a forward page leaves, and where the fill goes on from. */
  lemma StepFinal(t: Tables, series: nat, tf: Tf, v: Moment, w: Moment, lo: int, m: Option<int>, start: Option<int>,
                  page: seq<Bar>, now: int, latest: int)
    requires Later(v, w, TfMs(tf)) && Good(w, TfMs(tf)) && lo <= now <= latest
    requires Front(Opens(t, series, tf), m, v.bars, TfMs(tf), lo, start)
    requires page != [] && ForwardPage(w.bars, lo, page)
    ensures Right(t, series, tf, v, lo) && now <= v.clock ==>
              var u, next := RestAll(t, series, tf, page, now, latest), page[|page| - 1].ts + TfMs(tf);
              Final(u, series, tf, w) && (next <= now ==> Right(u, series, tf, w, next))
  {
    if !(Right(t, series, tf, v, lo) && now <= v.clock) {
      return;
    }
    LaterGrown(v, w, TfMs(tf));
    StaysFinal(t, series, tf, v, w, lo, m, start);
    FrontBelow(Opens(t, series, tf), m, v.bars, TfMs(tf), lo, start);
    var f := FirstAt(w.bars, lo);
    FirstAtSplits(w.bars, TfMs(tf), lo);
    assert PageAt(w.bars, f, page) by {
      assert Opened(Seal);
    }
    PageFinal(t, series, tf, w, lo, f, page, now, latest);
    var next := page[|page| - 1].ts + TfMs(tf);
    if next <= now {
      PageRight(t, series, tf, w, lo, f, page, now, latest, next);
    }
  }

  /** A page, when it was fetched, and the venue it came from. */
  datatype Page = Page(bars: seq<Bar>, fetched: int, seen: Moment)

  /** The tables after storing pages in turn. */
  ghost function RestPages(t: Tables, series: nat, tf: Tf, pages: seq<Page>, now: int): Tables {
    if pages == [] then t
    else
      var p := pages[|pages| - 1];
      var before := RestPages(t, series, tf, pages[..|pages| - 1], now);
      RestAll(before, series, tf, p.bars, now, LatestOpen(now, Some(p.fetched)))
  }

  /** Every page holds bars as the venue had them at some time up to `v`. */
  ghost predicate FromVenue(pages: seq<Page>, v: Moment, ms: int) {
    forall p :: p in pages ==> Later(p.seen, v, ms) && forall b :: b in p.bars ==> b in p.seen.bars
  }

  lemma FromVenueOn(pages: seq<Page>, v: Moment, w: Moment, ms: int, more: seq<Page>)
    requires FromVenue(pages, v, ms) && FromVenue(more, w, ms) && Later(v, w, ms)
    ensures FromVenue(pages + more, w, ms)
  {
    forall p | p in pages + more
      ensures Later(p.seen, w, ms) && forall b :: b in p.bars ==> b in p.seen.bars
    {
      if p in pages {
        LaterTrans(p.seen, v, w, ms);
      }
    }
  }

  lemma PageFromVenue(v: Moment, ms: int, lo: int, page: seq<Bar>, fetched: int)
    requires ForwardPage(v.bars, lo, page)
    ensures FromVenue([Page(page, fetched, v)], v, ms)
  {
    LaterItself(v, ms);
    assert Opened(Seal);
    forall b | b in page
      ensures b in v.bars
    {
      var i :| 0 <= i < |page| && page[i] == b;
      assert v.bars[FirstAt(v.bars, lo) + i] == b;
    }
  }

  lemma RestPagesSnoc(t: Tables, series: nat, tf: Tf, pages: seq<Page>, p: Page, now: int)
    ensures RestPages(t, series, tf, pages + [p], now)
            == RestAll(RestPages(t, series, tf, pages, now), series, tf, p.bars, now, LatestOpen(now, Some(p.fetched)))
  {
    assert (pages + [p])[..|pages|] == pages;
  }

  lemma RestPagesOn(t: Tables, series: nat, tf: Tf, pages: seq<Page>, more: seq<Page>, now: int)
    requires |more| <= 1
    ensures RestPages(RestPages(t, series, tf, pages, now), series, tf, more, now)
            == RestPages(t, series, tf, pages + more, now)
  {
    if more == [] {
      assert pages + more == pages;
    } else {
      assert more == [] + [more[0]];
      RestPagesSnoc(RestPages(t, series, tf, pages, now), series, tf, [], more[0], now);
      RestPagesSnoc(t, series, tf, pages, more[0], now);
    }
  }

  /** A page that failed or was empty. */
  lemma NothingStored(t: Tables, series: nat, tf: Tf, v: Moment, w: Moment, lo: int, m: Option<int>,
                      start: Option<int>)
    requires Later(v, w, TfMs(tf)) && Good(w, TfMs(tf))
    requires Front(Opens(t, series, tf), m, v.bars, TfMs(tf), lo, start)
    ensures Sane(Opens(t, series, tf), w.bars, start)
    ensures Right(t, series, tf, v, lo) ==> Final(t, series, tf, w)
  {
    LaterGrown(v, w, TfMs(tf));
    FrontGrows(Opens(t, series, tf), m, v.bars, w.bars, TfMs(tf), lo, start);
    FrontIsSane(Opens(t, series, tf), m, w.bars, TfMs(tf), lo, start);
    if Right(t, series, tf, v, lo) {
      StaysFinal(t, series, tf, v, w, lo, m, start);
    }
  }

  lemma PageRecorded(t: Tables, series: nat, tf: Tf, v: Moment, lo: int, page: seq<Bar>, now: int, fetched: int)
    requires ForwardPage(v.bars, lo, page)
    ensures var p := Page(page, fetched, v);
            && FromVenue([p], v, TfMs(tf))
            && RestPages(t, series, tf, [p], now) == RestAll(t, series, tf, page, now, LatestOpen(now, Some(fetched)))
  {
    var p := Page(page, fetched, v);
    PageFromVenue(v, TfMs(tf), lo, page, fetched);
    assert [] + [p] == [p];
    RestPagesSnoc(t, series, tf, [], p, now);
  }

  /** The tables once a forward page is stored. */
  ghost function Paged(t: Tables, series: nat, tf: Tf, page: seq<Bar>, now: int, fetched: int): Tables {
    RestAll(t, series, tf, page, now, LatestOpen(now, Some(fetched)))
  }

  lemma PageSane(t: Tables, series: nat, tf: Tf, m: Option<int>, v: Moment, w: Moment, lo: int, start: Option<int>,
                 page: seq<Bar>, now: int, fetched: int)
    requires Later(v, w, TfMs(tf)) && Good(w, TfMs(tf)) && now <= fetched
    requires Front(Opens(t, series, tf), m, v.bars, TfMs(tf), lo, start)
    requires page != [] && ForwardPage(w.bars, lo, page)
    ensures var opens, last := Opens(Paged(t, series, tf, page, now, fetched), series, tf), page[|page| - 1].ts;
            && Opens(t, series, tf) <= opens && Sane(opens, w.bars, start) && lo <= last
            && (last <= now ==> Front(opens, Some(last), w.bars, TfMs(tf), last + TfMs(tf), start))
  {
    var opens, latest := Opens(t, series, tf), LatestOpen(now, Some(fetched));
    LaterGrown(v, w, TfMs(tf));
    FrontGrows(opens, m, v.bars, w.bars, TfMs(tf), lo, start);
    FrontPages(opens, m, w.bars, TfMs(tf), lo, start, page, latest);
    RestOpens(t, series, tf, page, now, latest, |page|);
  }

  // -- catching up -------------------------------------------------------

  /** Everything the venue has from `lo` up to `now` is stored. */
  ghost predicate CaughtUp(opens: set<int>, bars: seq<Bar>, lo: int, now: int) {
    forall x: Seal {:trigger Opened(x)} :: Stretch(bars, lo, now + 1) <= opens
  }

  /** Where a fill began: a stored bar, or the start of an empty series. */
  ghost predicate Begins(opens: set<int>, start: Option<int>, lo: int) {
    forall x: Seal {:trigger Opened(x)} :: lo in opens || start == Some(lo)
  }

  lemma BeginsHere(opens: set<int>, m: Option<int>, start: int)
    requires IsMax(opens, m)
    ensures var lo := if m.Some? then m.value else start;
            Begins(opens, StartOf(opens, start), lo) && FrontierOf(opens, start, lo)
  {
  }

  lemma BeginsStill(opens: set<int>, more: set<int>, start: Option<int>, lo: int)
    requires Begins(opens, start, lo) && opens <= more
    ensures Begins(more, start, lo)
  {
    assert Opened(Seal);
  }

  lemma NoneCounted(bars: seq<Bar>, lo: int)
    ensures AtLeast(bars, lo, lo, 0)
  {
  }

  /** From where the fill began up to the place to go on from, nothing is missing. */
  lemma FrontCovers(opens: set<int>, m: Option<int>, bars: seq<Bar>, ms: int, lo: int, start: Option<int>, lo0: int)
    requires Front(opens, m, bars, ms, lo, start) && Begins(opens, start, lo0)
    ensures Stretch(bars, lo0, lo) <= opens
  {
    assert Opened(Seal);
    forall t | t in Stretch(bars, lo0, lo)
      ensures t in opens
    {
      var i :| 0 <= i < |bars| && lo0 <= bars[i].ts < lo && bars[i].ts == t;
      assert t in Times(bars);
      assert m.Some? ==> t <= m.value;
    }
  }

  /** No bar is left in `[lo, now]`. */
  lemma EmptyCatchesUp(opens: set<int>, m: Option<int>, v: Moment, w: Moment, ms: int, lo: int, start: Option<int>,
                       lo0: int, now: int)
    requires Later(v, w, ms) && Good(w, ms) && Front(opens, m, v.bars, ms, lo, start) && Begins(opens, start, lo0)
    requires Stretch(w.bars, lo, now + 1) == {}
    ensures CaughtUp(opens, w.bars, lo0, now)
  {
    LaterGrown(v, w, ms);
    FrontGrows(opens, m, v.bars, w.bars, ms, lo, start);
    FrontCovers(opens, m, w.bars, ms, lo, start, lo0);
    forall t | t in Stretch(w.bars, lo0, now + 1)
      ensures t in opens
    {
      assert t !in Stretch(w.bars, lo, now + 1);
      assert t in Stretch(w.bars, lo0, lo);
    }
  }

  /** A page whose last bar is the open one reaches `now`. */
  lemma PageCatchesUp(opens: set<int>, m: Option<int>, v: Moment, w: Moment, ms: int, lo: int, start: Option<int>,
                      page: seq<Bar>, latest: int, lo0: int, now: int)
    requires Later(v, w, ms) && Good(w, ms) && Front(opens, m, v.bars, ms, lo, start) && Begins(opens, start, lo0)
    requires page != [] && ForwardPage(w.bars, lo, page) && now <= latest && now < page[|page| - 1].ts + ms
    ensures CaughtUp(opens + Accepted(page, latest, |page|), w.bars, lo0, now)
  {
    LaterGrown(v, w, ms);
    FrontGrows(opens, m, v.bars, w.bars, ms, lo, start);
    FrontCovers(opens, m, w.bars, ms, lo, start, lo0);
    var end := PageIsStretch(w.bars, ms, lo, page, latest);
    forall t | t in Stretch(w.bars, lo0, now + 1)
      ensures t in opens + Accepted(page, latest, |page|)
    {
      var i :| 0 <= i < |w.bars| && lo0 <= w.bars[i].ts < now + 1 && w.bars[i].ts == t;
      InOrder(w.bars, ms, i, end);
      assert t < lo ==> t in Stretch(w.bars, lo0, lo);
      assert lo <= t ==> t in Stretch(w.bars, lo, Min(w.bars[end].ts, latest) + 1);
    }
  }

  lemma NothingDue(opens: set<int>, m: Option<int>, bars: seq<Bar>, ms: int, lo: int, start: Option<int>, lo0: int,
                   now: int)
    requires Front(opens, m, bars, ms, lo, start) && Begins(opens, start, lo0) && now < lo
    ensures CaughtUp(opens, bars, lo0, now)
  {
    FrontCovers(opens, m, bars, ms, lo, start, lo0);
    forall t | t in Stretch(bars, lo0, now + 1)
      ensures t in Stretch(bars, lo0, lo)
    {
      var i :| 0 <= i < |bars| && lo0 <= bars[i].ts < now + 1 && bars[i].ts == t;
    }
  }

  /** The newest stored bar, or the start of an empty series. */
  ghost predicate FrontierOf(opens: set<int>, start: int, lo: int) {
    forall x: Seal {:trigger Opened(x)} :: if opens == {} then lo == start else IsMax(opens, Some(lo))
  }

  /** The venue has at least `n` bars in `[lo, e)`. */
  ghost predicate AtLeast(bars: seq<Bar>, lo: int, e: int, n: nat) {
    forall x: Seal {:trigger Opened(x)} :: n <= |Stretch(bars, lo, e)|
  }

  lemma StretchWithin(a: seq<Bar>, b: seq<Bar>, lo: int, e: int, f: int)
    requires Grown(a, b) && e <= f
    ensures Stretch(a, lo, e) <= Stretch(b, lo, f)
  {
    forall t | t in Stretch(a, lo, e)
      ensures t in Stretch(b, lo, f)
    {
      var i :| 0 <= i < |a| && lo <= a[i].ts < e && a[i].ts == t;
      assert b[i].ts == t;
    }
  }

  lemma AtLeastGrows(a: seq<Bar>, b: seq<Bar>, lo: int, e: int, f: int, n: nat)
    requires Grown(a, b) && e <= f && AtLeast(a, lo, e, n)
    ensures AtLeast(b, lo, f, n)
  {
    assert Opened(Seal);
    StretchWithin(a, b, lo, e, f);
    SmallerSet(Stretch(a, lo, e), Stretch(b, lo, f));
  }

  lemma OneMore(a: set<int>, b: set<int>, x: int)
    requires a <= b && x in b && x !in a
    ensures |a| < |b|
  {
    SmallerSet(a + {x}, b);
  }

  /** A page moves past at least one bar. */
  lemma PageCounts(v: Moment, w: Moment, ms: int, lo: int, page: seq<Bar>, lo0: int, n: nat)
    requires Later(v, w, ms) && Good(w, ms) && lo0 <= lo && page != [] && ForwardPage(w.bars, lo, page)
    requires AtLeast(v.bars, lo0, lo, n)
    ensures AtLeast(w.bars, lo0, page[|page| - 1].ts + ms, n + 1)
  {
    LaterGrown(v, w, ms);
    var end := PageIsStretch(w.bars, ms, lo, page, 0);
    BarCounts(v.bars, w.bars, ms, lo, end, lo0, n);
  }

  lemma BarCounts(a: seq<Bar>, b: seq<Bar>, ms: int, lo: int, end: nat, lo0: int, n: nat)
    requires 0 < ms && Grown(a, b) && end < |b| && lo0 <= lo <= b[end].ts && AtLeast(a, lo0, lo, n)
    ensures AtLeast(b, lo0, b[end].ts + ms, n + 1)
  {
    var last := b[end].ts;
    StretchWithin(a, b, lo0, lo, last + ms);
    assert last in Stretch(b, lo0, last + ms) && last !in Stretch(a, lo0, lo);
    OneMore(Stretch(a, lo0, lo), Stretch(b, lo0, last + ms), last);
    assert Opened(Seal);
  }

  /** A page is progress: past at least one bar, and up to `now` when its last bar is the open one. */
  lemma PageAdvances(t: Tables, series: nat, tf: Tf, m: Option<int>, v: Moment, w: Moment, lo: int,
                     start: Option<int>, page: seq<Bar>, now: int, fetched: int, lo0: int, n: nat)
    requires Later(v, w, TfMs(tf)) && Good(w, TfMs(tf)) && now <= fetched && lo0 <= lo
    requires Front(Opens(t, series, tf), m, v.bars, TfMs(tf), lo, start) && Begins(Opens(t, series, tf), start, lo0)
    requires page != [] && ForwardPage(w.bars, lo, page) && AtLeast(v.bars, lo0, lo, n)
    ensures AtLeast(w.bars, lo0, page[|page| - 1].ts + TfMs(tf), n + 1)
    ensures now < page[|page| - 1].ts + TfMs(tf) ==>
              CaughtUp(Opens(Paged(t, series, tf, page, now, fetched), series, tf), w.bars, lo0, now)
  {
    var latest := LatestOpen(now, Some(fetched));
    PageCounts(v, w, TfMs(tf), lo, page, lo0, n);
    if now < page[|page| - 1].ts + TfMs(tf) {
      PageCatchesUp(Opens(t, series, tf), m, v, w, TfMs(tf), lo, start, page, latest, lo0, now);
      RestOpens(t, series, tf, page, now, latest, |page|);
    }
  }

  /** Stores a forward page the venue answered at `w`, having been seen at `v` before. */
  method StoreForward(store: Store, series: nat, tf: Tf, page: seq<Bar>, now: int, ghost v: Moment, ghost w: Moment,
                      ghost lo: int, ghost m: Option<int>, ghost start: Option<int>, ghost lo0: int, ghost n: nat)
    returns (ghost pages: seq<Page>)
    requires Later(v, w, TfMs(tf)) && Good(w, TfMs(tf)) && lo0 <= lo <= now
    requires Front(Opens(store.tables, series, tf), m, v.bars, TfMs(tf), lo, start)
    requires Begins(Opens(store.tables, series, tf), start, lo0) && AtLeast(v.bars, lo0, lo, n)
    requires page != [] && ForwardPage(w.bars, lo, page)
    modifies store
    ensures Opens(old(store.tables), series, tf) <= Opens(store.tables, series, tf)
    ensures Sane(Opens(store.tables, series, tf), w.bars, start) && lo <= page[|page| - 1].ts
    ensures |pages| == 1 && FromVenue(pages, w, TfMs(tf))
    ensures store.tables == RestPages(old(store.tables), series, tf, pages, now)
    ensures AtLeast(w.bars, lo0, page[|page| - 1].ts + TfMs(tf), n + 1)
    ensures var next := page[|page| - 1].ts + TfMs(tf);
            if next <= now
            then Front(Opens(store.tables, series, tf), Some(next - TfMs(tf)), w.bars, TfMs(tf), next, start)
            else CaughtUp(Opens(store.tables, series, tf), w.bars, lo0, now)
    ensures Right(old(store.tables), series, tf, v, lo) && now <= v.clock ==>
              var next := page[|page| - 1].ts + TfMs(tf);
              && Final(store.tables, series, tf, w)
              && (next <= now ==> Right(store.tables, series, tf, w, next))
  {
    var clock: int := *;
    var fetched := Max(now, clock);
    ghost var t := store.tables;
    pages := [Page(page, fetched, w)];
    PageRecorded(t, series, tf, w, lo, page, now, fetched);
    PageSane(t, series, tf, m, v, w, lo, start, page, now, fetched);
    StepFinal(t, series, tf, v, w, lo, m, start, page, now, LatestOpen(now, Some(fetched)));
    PageAdvances(t, series, tf, m, v, w, lo, start, page, now, fetched, lo0, n);
    var _ := store.UpsertRest(series, tf, page, now, Some(fetched));
    assert store.tables == Paged(t, series, tf, page, now, fetched);
  }

  /** One page of the forward fill, asked for and stored. */
  method ForwardPageStep(store: Store, venue: Venue, series: nat, tf: Tf, now: int, lo: int,
                         ghost m: Option<int>, ghost start: Option<int>, ghost lo0: int, ghost n: nat)
    returns (r: Step, ghost pages: seq<Page>)
    requires venue.Valid() && venue.ms == TfMs(tf) && lo0 <= lo <= now
    requires Begins(Opens(store.tables, series, tf), start, lo0) && AtLeast(venue.bars, lo0, lo, n)
    requires Front(Opens(store.tables, series, tf), m, venue.bars, venue.ms, lo, start)
    modifies store, venue
    ensures venue.Valid() && Later(old(venue.Now()), venue.Now(), venue.ms)
    ensures Opens(old(store.tables), series, tf) <= Opens(store.tables, series, tf)
    ensures Sane(Opens(store.tables, series, tf), venue.bars, start)
    ensures |pages| <= 1 && FromVenue(pages, venue.Now(), venue.ms)
    ensures store.tables == RestPages(old(store.tables), series, tf, pages, now)
    ensures r.Go? ==>
              lo < r.lo <= now
              && Front(Opens(store.tables, series, tf), Some(r.lo - venue.ms), venue.bars, venue.ms, r.lo, start)
    ensures Right(old(store.tables), series, tf, old(venue.Now()), lo) && now <= old(venue.clock) ==>
              && Final(store.tables, series, tf, venue.Now())
              && (r.Go? ==> Right(store.tables, series, tf, venue.Now(), r.lo))
    ensures r == Stop(Done) ==> CaughtUp(Opens(store.tables, series, tf), venue.bars, lo0, now)
    ensures r.Go? ==> |pages| == 1 && AtLeast(venue.bars, lo0, r.lo, n + 1)
    ensures r.Stop? ==> r.outcome != BudgetOut
    ensures venue.failures == old(venue.failures) + if r == Stop(Failed) then 1 else 0
    ensures venue.requests == old(venue.requests) + 1
  {
    var ms := TfMs(tf);
    ghost var t, opens, seen := store.tables, Opens(store.tables, series, tf), venue.Now();
    pages := [];
    var page := venue.Forward(lo, now);
    venue.IsGood();
    if page.None? || page.value == [] {
      NothingStored(t, series, tf, seen, venue.Now(), lo, m, start);
      if page.Some? {
        EmptyCatchesUp(opens, m, seen, venue.Now(), ms, lo, start, lo0, now);
      }
      return Stop(if page.None? then Failed else Done), pages;
    }
    pages := StoreForward(store, series, tf, page.value, now, seen, venue.Now(), lo, m, start, lo0, n);
    var newLo := page.value[|page.value| - 1].ts + ms;
    if newLo <= lo || newLo > now {
      return Stop(Done), pages;
    }
    return Go(newLo), pages;
  }

  /** What a fill has done since it began with tables `t0`, whatever it does next. */
  ghost predicate Filled(t0: Tables, t: Tables, series: nat, tf: Tf, begun: Moment, v: Moment, pages: seq<Page>,
                         now: int)
  {
    forall x: Seal {:trigger Opened(x)} ::
      && Later(begun, v, TfMs(tf)) && begun.clock <= v.clock && Opens(t0, series, tf) <= Opens(t, series, tf)
      && FromVenue(pages, v, TfMs(tf)) && t == RestPages(t0, series, tf, pages, now)
      && (Final(t0, series, tf, begun) && now <= begun.clock ==> Final(t, series, tf, v))
  }

  lemma FilledMeans(t0: Tables, t: Tables, series: nat, tf: Tf, begun: Moment, v: Moment, pages: seq<Page>, now: int)
    requires Filled(t0, t, series, tf, begun, v, pages, now)
    ensures Later(begun, v, TfMs(tf)) && Opens(t0, series, tf) <= Opens(t, series, tf)
    ensures FromVenue(pages, v, TfMs(tf)) && t == RestPages(t0, series, tf, pages, now)
    ensures Final(t0, series, tf, begun) && now <= begun.clock ==> Final(t, series, tf, v)
  {
    assert Opened(Seal);
  }

  /** And where it goes on from. */
  ghost predicate Filling(t0: Tables, t: Tables, series: nat, tf: Tf, begun: Moment, v: Moment, pages: seq<Page>,
                          m: Option<int>, lo: int, from: Option<int>, lo0: int, now: int)
  {
    forall x: Seal {:trigger Opened(x)} ::
      && Filled(t0, t, series, tf, begun, v, pages, now)
      && Front(Opens(t, series, tf), m, v.bars, TfMs(tf), lo, from)
      && AtLeast(v.bars, lo0, lo, |pages|) && Begins(Opens(t, series, tf), from, lo0)
      && (Final(t0, series, tf, begun) && now <= begun.clock ==> Right(t, series, tf, v, lo))
  }

  lemma FillingBegins(t: Tables, series: nat, tf: Tf, v: Moment, m: Option<int>, start: int, now: int)
    requires NoHole(Opens(t, series, tf), v.bars) && IsMax(Opens(t, series, tf), m)
    ensures var lo := if m.Some? then m.value else start;
            && Filling(t, t, series, tf, v, v, [], m, lo, StartOf(Opens(t, series, tf), start), lo, now)
            && FrontierOf(Opens(t, series, tf), start, lo)
  {
    var lo := if m.Some? then m.value else start;
    LaterItself(v, TfMs(tf));
    FrontBegins(Opens(t, series, tf), m, v.bars, TfMs(tf), start);
    BeginsHere(Opens(t, series, tf), m, start);
    NoneCounted(v.bars, lo);
    if Final(t, series, tf, v) {
      FinalBegins(t, series, tf, v, m, start);
    }
  }

  lemma FillingStands(t0: Tables, t: Tables, series: nat, tf: Tf, begun: Moment, v: Moment, pages: seq<Page>,
                      m: Option<int>, lo: int, from: Option<int>, lo0: int, now: int)
    requires Filling(t0, t, series, tf, begun, v, pages, m, lo, from, lo0, now)
    ensures Filled(t0, t, series, tf, begun, v, pages, now) && Sane(Opens(t, series, tf), v.bars, from)
    ensures Front(Opens(t, series, tf), m, v.bars, TfMs(tf), lo, from)
    ensures AtLeast(v.bars, lo0, lo, |pages|) && Begins(Opens(t, series, tf), from, lo0)
  {
    assert Opened(Seal);
    FrontIsSane(Opens(t, series, tf), m, v.bars, TfMs(tf), lo, from);
  }

  /** One page more. */
  lemma FillingMoves(t0: Tables, t: Tables, u: Tables, series: nat, tf: Tf, begun: Moment, v: Moment, w: Moment,
                     pages: seq<Page>, more: seq<Page>, m: Option<int>, lo: int, from: Option<int>, lo0: int, now: int)
    requires Filling(t0, t, series, tf, begun, v, pages, m, lo, from, lo0, now)
    requires Later(v, w, TfMs(tf)) && Opens(t, series, tf) <= Opens(u, series, tf) && |more| <= 1
    requires FromVenue(more, w, TfMs(tf)) && u == RestPages(t, series, tf, more, now)
    requires Right(t, series, tf, v, lo) && now <= v.clock ==> Final(u, series, tf, w)
    ensures Filled(t0, u, series, tf, begun, w, pages + more, now) && Begins(Opens(u, series, tf), from, lo0)
    ensures Final(t0, series, tf, begun) && now <= begun.clock ==> Right(t, series, tf, v, lo) && now <= v.clock
  {
    assert Opened(Seal);
    RestPagesOn(t0, series, tf, pages, more, now);
    FromVenueOn(pages, v, w, TfMs(tf), more);
    LaterTrans(begun, v, w, TfMs(tf));
    LaterGrown(v, w, TfMs(tf));
    BeginsStill(Opens(t, series, tf), Opens(u, series, tf), from, lo0);
  }

  lemma FillingAgain(t0: Tables, t: Tables, series: nat, tf: Tf, begun: Moment, v: Moment, pages: seq<Page>,
                     m: Option<int>, lo: int, from: Option<int>, lo0: int, now: int)
    requires Filled(t0, t, series, tf, begun, v, pages, now)
    requires Front(Opens(t, series, tf), m, v.bars, TfMs(tf), lo, from)
    requires AtLeast(v.bars, lo0, lo, |pages|) && Begins(Opens(t, series, tf), from, lo0)
    requires Final(t0, series, tf, begun) && now <= begun.clock ==> Right(t, series, tf, v, lo)
    ensures Filling(t0, t, series, tf, begun, v, pages, m, lo, from, lo0, now)
  {
  }

  /** Page after page from `lo` on. */
  method FillPages(store: Store, venue: Venue, series: nat, tf: Tf, now: int, from: int, budget: nat,
                   ghost last: Option<int>, ghost start: Option<int>)
    returns (r: Outcome, ghost pages: seq<Page>)
    requires venue.Valid() && venue.ms == TfMs(tf)
    requires Filling(store.tables, store.tables, series, tf, venue.Now(), venue.Now(), [], last, from, start, from, now)
    modifies store, venue
    ensures venue.Valid() && Sane(Opens(store.tables, series, tf), venue.bars, start)
    ensures Filled(old(store.tables), store.tables, series, tf, old(venue.Now()), venue.Now(), pages, now)
    ensures |pages| <= budget
    ensures r == Done ==> CaughtUp(Opens(store.tables, series, tf), venue.bars, from, now)
    ensures r == BudgetOut ==> AtLeast(venue.bars, from, now + 1, budget) && |pages| == budget
    ensures venue.failures == old(venue.failures) + if r == Failed then 1 else 0
    ensures |pages| <= venue.requests - old(venue.requests) <= budget
  {
    var lo, left := from, budget;
    ghost var m, begun, t0 := last, venue.Now(), store.tables;
    pages := [];
    while lo <= now
      invariant venue.Valid() && |pages| + left == budget && from <= lo && venue.failures == old(venue.failures)
      invariant venue.requests == old(venue.requests) + |pages|
      invariant Filling(t0, store.tables, series, tf, begun, venue.Now(), pages, m, lo, start, from, now)
      decreases now - lo
    {
      FillingStands(t0, store.tables, series, tf, begun, venue.Now(), pages, m, lo, start, from, now);
      if left == 0 {
        AtLeastGrows(venue.bars, venue.bars, from, lo, now + 1, |pages|);
        return BudgetOut, pages;
      }
      left := left - 1;
      ghost var seen, t := venue.Now(), store.tables;
      var step, more := ForwardPageStep(store, venue, series, tf, now, lo, m, start, from, |pages|);
      FillingMoves(t0, t, store.tables, series, tf, begun, seen, venue.Now(), pages, more, m, lo, start, from, now);
      pages := pages + more;
      if step.Stop? {
        return step.outcome, pages;
      }
      lo, m := step.lo, Some(step.lo - venue.ms);
      FillingAgain(t0, store.tables, series, tf, begun, venue.Now(), pages, m, lo, start, from, now);
    }
    FillingStands(t0, store.tables, series, tf, begun, venue.Now(), pages, m, lo, start, from, now);
    NothingDue(Opens(store.tables, series, tf), m, venue.bars, venue.ms, lo, start, from, now);
    return Done, pages;
  }

  /** The forward fill: page by page from the stored frontier, or from `start` into an empty series.
      However it ends - budget out, failure, an empty page, the open bar - it leaves no hole, what it
      stored is the venue's own bars, and behind the frontier every bar has the venue's final values. Done,
      it has everything the venue has up to `now`; its budget runs out only on a page for every bar. */
  method FillForward(store: Store, venue: Venue, series: nat, tf: Tf, now: int, start: int, budget: nat)
    returns (r: Outcome, ghost pages: seq<Page>, ghost lo0: int)
    requires venue.Valid() && venue.ms == TfMs(tf)
    requires NoHole(Opens(store.tables, series, tf), venue.bars)
    modifies store, venue
    ensures venue.Valid() && Later(old(venue.Now()), venue.Now(), venue.ms)
    ensures Opens(old(store.tables), series, tf) <= Opens(store.tables, series, tf)
    ensures Sane(Opens(store.tables, series, tf), venue.bars, StartOf(Opens(old(store.tables), series, tf), start))
    ensures |pages| <= budget && FromVenue(pages, venue.Now(), venue.ms)
    ensures store.tables == RestPages(old(store.tables), series, tf, pages, now)
    ensures Final(old(store.tables), series, tf, old(venue.Now())) && now <= old(venue.clock) ==>
              Final(store.tables, series, tf, venue.Now())
    ensures FrontierOf(Opens(old(store.tables), series, tf), start, lo0)
    ensures r == Done ==> CaughtUp(Opens(store.tables, series, tf), venue.bars, lo0, now)
    ensures r == BudgetOut ==> AtLeast(venue.bars, lo0, now + 1, budget) && |pages| == budget
    ensures venue.failures == old(venue.failures) + if r == Failed then 1 else 0
    ensures |pages| <= venue.requests - old(venue.requests) <= budget
  {
    var last := MaxOpen(store.tables, series, tf);
    var lo := if last.Some? then last.value else start;
    ghost var t0, begun := store.tables, venue.Now();
    FillingBegins(t0, series, tf, begun, last, start, now);
    lo0 := lo;
    r, pages := FillPages(store, venue, series, tf, now, lo, budget, last, StartOf(Opens(t0, series, tf), start));
    FilledMeans(t0, store.tables, series, tf, begun, venue.Now(), pages, now);
  }

  // -- OKX, backward -----------------------------------------------------

  /** The bars from the `k`-th to the last that opens before `from`. */
  ghost predicate Holding(bars: seq<Bar>, from: int, k: nat, got: seq<Bar>) {
    forall x: Seal {:trigger Opened(x)} :: k <= FirstAt(bars, from) && got == bars[k..FirstAt(bars, from)]
  }

  ghost predicate Connects(bars: seq<Bar>, k: nat, bound: int) { k == 0 || (k < |bars| && bars[k].ts <= bound) }

  /** The newest bars that open before `from`, back to the listing edge or to one at or before `bound`. */
  ghost predicate Walked(bars: seq<Bar>, from: int, bound: int, got: seq<Bar>) {
    exists k: nat :: Holding(bars, from, k, got) && Connects(bars, k, bound)
  }

  /** The bars before a known one have closed, so they are still as they were. */
  lemma OlderSame(v: Moment, w: Moment, ms: int, k: nat)
    requires Good(v, ms) && Later(v, w, ms) && k < |v.bars|
    ensures |v.bars| <= |w.bars| && w.bars[..k] == v.bars[..k]
  {
    assert Opened(Seal);
    forall i | 0 <= i < k
      ensures w.bars[i] == v.bars[i]
    {
      InOrder(v.bars, ms, i, k);
    }
  }

  /** The next page of the walk adjoins what is held. */
  lemma WalkOn(base: seq<Bar>, bars: seq<Bar>, from: int, k: nat, got: seq<Bar>, after: int, page: seq<Bar>)
    requires k <= |base| <= |bars| && bars[..k] == base[..k] && FirstAt(bars, after) == k
    requires Holding(base, from, k, got) && BackwardPage(bars, after, page)
    ensures |page| == Min(k, OKX_PAGE_LIMIT) && Holding(base, from, k - |page|, page + got)
    ensures page != [] ==> page[0] == base[k - |page|]
  {
    assert Opened(Seal);
    Adjoin(base, bars, k - Min(k, OKX_PAGE_LIMIT), k, FirstAt(base, from), page, got);
  }

  lemma Adjoin(base: seq<Bar>, bars: seq<Bar>, n: nat, k: nat, e: nat, page: seq<Bar>, got: seq<Bar>)
    requires n <= k <= e <= |base| <= |bars| && bars[..k] == base[..k] && page == bars[n..k] && got == base[k..e]
    ensures page + got == base[n..e] && |page| == k - n && (page != [] ==> page[0] == base[n])
  {
    assert bars[n..k] == bars[..k][n..] == base[n..k];
  }

  /** The bars before a known one stay where they were. */
  lemma OlderStay(a: seq<Bar>, b: seq<Bar>, ms: int, k: nat)
    requires 0 < ms && Spaced(b, ms) && Grown(a, b) && k < |a|
    ensures FirstAt(b, a[k].ts) == k
  {
    forall i | 0 <= i < |b|
      ensures i < k <==> b[i].ts < a[k].ts
    {
      InOrder(b, ms, i, k);
    }
    FirstAtUnique(b, ms, a[k].ts, k);
  }

  /** A stretch of bars within `[lo, e)` counts as so many. */
  lemma {:induction false} SliceCounts(bars: seq<Bar>, ms: int, k: nat, e: nat, lo: int, f: int)
    requires 0 < ms && Spaced(bars, ms) && k <= e <= |bars|
    requires k < e ==> lo <= bars[k].ts && bars[e - 1].ts < f
    ensures AtLeast(bars, lo, f, e - k)
    decreases e - k
  {
    if k < e {
      var last := bars[e - 1].ts;
      if k < e - 1 {
        InOrder(bars, ms, k, e - 1);
        InOrder(bars, ms, e - 2, e - 1);
      }
      SliceCounts(bars, ms, k, e - 1, lo, last);
      StretchWithin(bars, bars, lo, last, f);
      assert last in Stretch(bars, lo, f) && last !in Stretch(bars, lo, last);
      OneMore(Stretch(bars, lo, last), Stretch(bars, lo, f), last);
      assert Opened(Seal);
    }
  }

  /** What the walk holds when its budget runs out: nothing but full pages, all newer than the bound. */
  lemma WalkCounts(bars: seq<Bar>, ms: int, from: int, bound: int, k: nat, got: seq<Bar>)
    requires 0 < ms && Spaced(bars, ms)
    requires got != [] ==> k < |bars| && bound < bars[k].ts && Holding(bars, from, k, got)
    ensures AtLeast(bars, bound + 1, from, |got|)
  {
    if got != [] {
      assert Opened(Seal);
      FirstAtSplits(bars, ms, from);
      SliceCounts(bars, ms, k, FirstAt(bars, from), bound + 1, from);
    }
  }

  /** The walk from `from` back towards `bound`, held in memory. What it returns is one unbroken
      run of the venue's bars as they stood when its first page came. */
  method WalkBack(venue: Venue, from: int, bound: int, budget: nat)
    returns (r: Outcome, got: seq<Bar>, ghost base: Moment)
    requires venue.Valid()
    modifies venue
    ensures venue.Valid() && Good(base, venue.ms)
    ensures Later(old(venue.Now()), base, venue.ms) && Later(base, venue.Now(), venue.ms)
    ensures r.Done? ==> Walked(base.bars, from, bound, got)
    ensures r.BudgetOut? ==> AtLeast(base.bars, bound + 1, from, budget * OKX_PAGE_LIMIT)
    ensures venue.failures == old(venue.failures) + if r.Failed? then 1 else 0
    ensures venue.requests <= old(venue.requests) + budget
  {
    ghost var begun := venue.Now();
    venue.IsGood();
    got, base := [], begun;
    LaterItself(begun, venue.ms);
    var after, left := from, budget;
    ghost var started := false;
    ghost var k: nat, full: nat := 0, 0;
    while true
      invariant venue.Valid() && Good(base, venue.ms)
      invariant Later(begun, base, venue.ms) && Later(base, venue.Now(), venue.ms)
      invariant !started ==> got == [] && after == from && base == begun
      invariant started ==> k < |base.bars| && Holding(base.bars, from, k, got) && after == base.bars[k].ts
      invariant started ==> bound < base.bars[k].ts
      invariant full + left == budget && |got| == full * OKX_PAGE_LIMIT
      invariant venue.failures == old(venue.failures) && venue.requests == old(venue.requests) + full
      decreases !started, k
    {
      if left == 0 {
        WalkCounts(base.bars, venue.ms, from, bound, k, got);
        return BudgetOut, got, base;
      }
      left := left - 1;
      ghost var seen := venue.Now();
      var page := venue.Backward(after);
      venue.IsGood();
      LaterTrans(base, seen, venue.Now(), venue.ms);
      if page.None? {
        return Failed, got, base;
      }
      if started {
        LaterGrown(base, venue.Now(), venue.ms);
        OlderStay(base.bars, venue.bars, venue.ms, k);
        OlderSame(base, venue.Now(), venue.ms, k);
      } else {
        base, k := venue.Now(), FirstAt(venue.bars, from);
        LaterItself(base, venue.ms);
      }
      WalkOn(base.bars, venue.bars, from, k, got, after, page.value);
      got := page.value + got;
      k := k - |page.value|;
      if page.value == [] {
        return Done, got, base;
      }
      var oldest := page.value[0].ts;
      if oldest <= bound {
        return Done, got, base;
      }
      after := oldest;
      if |page.value| < OKX_PAGE_LIMIT {
        return Done, got, base;
      }
      started := true;
      full := full + 1;
    }
  }

  /** The bars at or after `bound`. */
  function Kept(bars: seq<Bar>, bound: int): seq<Bar> {
    if bars == [] then []
    else (if bound <= bars[0].ts then [bars[0]] else []) + Kept(bars[1..], bound)
  }

  lemma {:induction false} KeptMembers(bars: seq<Bar>, bound: int)
    ensures forall b :: b in Kept(bars, bound) <==> b in bars && bound <= b.ts
  {
    if bars != [] {
      KeptMembers(bars[1..], bound);
      assert bars == [bars[0]] + bars[1..];
    }
  }

  lemma KeptIsVenues(bars: seq<Bar>, ms: int, from: int, k: nat, got: seq<Bar>, b: Bar)
    requires 0 < ms && Spaced(bars, ms) && Holding(bars, from, k, got) && b in got
    ensures b.ts < from && exists i :: 0 <= i < |bars| && bars[i] == b
  {
    assert Opened(Seal);
    FirstAtSplits(bars, ms, from);
    var g :| 0 <= g < |got| && got[g] == b;
    assert bars[k + g] == b;
  }

  lemma VenuesIsKept(bars: seq<Bar>, ms: int, from: int, bound: int, k: nat, got: seq<Bar>, i: nat)
    requires 0 < ms && Spaced(bars, ms) && Holding(bars, from, k, got) && i < |bars|
    requires Connects(bars, k, bound)
    requires bound <= bars[i].ts < from
    ensures bars[i] in got
  {
    assert Opened(Seal);
    FirstAtSplits(bars, ms, from);
    if k > 0 {
      InOrder(bars, ms, i, k);
    }
    assert got[i - k] == bars[i];
  }

  /** A connected walk, cut at the bound and at the latest open accepted, is a stretch of the venue. */
  lemma WalkIsStretch(bars: seq<Bar>, ms: int, from: int, bound: int, got: seq<Bar>, latest: int)
    requires 0 < ms && Spaced(bars, ms) && Walked(bars, from, bound, got)
    ensures var keep := Kept(got, bound);
            Accepted(keep, latest, |keep|) == Stretch(bars, bound, Min(from, latest + 1))
  {
    var keep := Kept(got, bound);
    KeptMembers(got, bound);
    var k: nat :| Holding(bars, from, k, got) && Connects(bars, k, bound);
    forall x
      ensures x in Accepted(keep, latest, |keep|) <==> x in Stretch(bars, bound, Min(from, latest + 1))
    {
      if x in Accepted(keep, latest, |keep|) {
        var j :| 0 <= j < |keep| && keep[j].ts <= latest && keep[j].ts == x;
        assert keep[j] in keep;
        KeptIsVenues(bars, ms, from, k, got, keep[j]);
      }
      if x in Stretch(bars, bound, Min(from, latest + 1)) {
        var i :| 0 <= i < |bars| && bound <= bars[i].ts < Min(from, latest + 1) && bars[i].ts == x;
        VenuesIsKept(bars, ms, from, bound, k, got, i);
        assert bars[i] in keep;
      }
    }
  }

  lemma SaneGrows(opens: set<int>, a: seq<Bar>, b: seq<Bar>, ms: int, start: Option<int>)
    requires 0 < ms && Spaced(b, ms) && Grown(a, b) && Sane(opens, a, start)
    ensures Sane(opens, b, start)
  {
    assert Opened(Seal);
    GrowthKeepsNoHole(opens, a, b, ms);
    if start.Some? {
      GrowthKeepsFilled(opens, a, b, ms, start.value);
    }
  }

  /** Storing a connected walk, as the series and the venue stand when it ends. */
  lemma WalkStores(opens: set<int>, m: Option<int>, seen: seq<Bar>, base: seq<Bar>, bars: seq<Bar>, ms: int,
                   from: int, bound: int, got: seq<Bar>, latest: int, start: Option<int>)
    requires 0 < ms && Spaced(base, ms) && Spaced(bars, ms) && Grown(seen, base) && Grown(base, bars)
    requires Front(opens, m, seen, ms, bound, start) && Walked(base, from, bound, got)
    ensures var keep := Kept(got, bound);
            && Accepted(keep, latest, |keep|) == Stretch(base, bound, Min(from, latest + 1))
            && Sane(opens + Accepted(keep, latest, |keep|), bars, start)
            && opens + Accepted(keep, latest, |keep|) <= Times(base)
  {
    var e := Min(from, latest + 1);
    WalkIsStretch(base, ms, from, bound, got, latest);
    FrontGrows(opens, m, seen, base, ms, bound, start);
    FrontBelow(opens, m, base, ms, bound, start);
    FrontMoves(opens, m, base, ms, bound, start, e);
    SaneGrows(opens + Stretch(base, bound, e), base, bars, ms, start);
  }

  /** Of the bars from `i` to `e`, those at or after the bound. */
  lemma {:induction false} KeptRange(bars: seq<Bar>, bound: int, n: nat, i: nat, e: nat)
    requires Splits(bars, bound, n) && i <= e <= |bars|
    ensures Kept(bars[i..e], bound) == if n <= i then bars[i..e] else if n < e then bars[n..e] else []
    decreases e - i
  {
    if i < e {
      var rest := bars[i..e];
      assert rest[0] == bars[i] && rest[1..] == bars[i + 1..e];
      KeptRange(bars, bound, n, i + 1, e);
      assert [bars[i]] + bars[i + 1..e] == rest;
    }
  }

  /** A walk that connects to the bound begins at or before it. */
  lemma ConnectsBefore(bars: seq<Bar>, ms: int, k: nat, bound: int, f: nat)
    requires 0 < ms && Spaced(bars, ms) && Connects(bars, k, bound) && Splits(bars, bound, f)
    ensures k <= f
  {
    if f < k {
      InOrder(bars, ms, f, k);
    }
  }

  lemma SlicePage(bars: seq<Bar>, f: nat, e: nat)
    requires f <= e <= |bars|
    ensures PageAt(bars, f, bars[f..e])
  {
  }

  lemma KeptPage(bars: seq<Bar>, ms: int, bound: int, f: nat, k: nat, e: nat)
    requires 0 < ms && Spaced(bars, ms) && Splits(bars, bound, f) && Connects(bars, k, bound) && k <= e <= |bars|
    ensures Kept(bars[k..e], bound) == [] || PageAt(bars, f, Kept(bars[k..e], bound))
  {
    ConnectsBefore(bars, ms, k, bound, f);
    KeptRange(bars, bound, f, k, e);
    if f < e {
      SlicePage(bars, f, e);
    }
  }

  lemma HoldingIsSlice(bars: seq<Bar>, from: int, k: nat, got: seq<Bar>)
    requires Holding(bars, from, k, got)
    ensures exists e: nat :: k <= e <= |bars| && got == bars[k..e]
  {
    assert Opened(Seal);
    assert k <= FirstAt(bars, from) <= |bars| && got == bars[k..FirstAt(bars, from)];
  }

  /** What a connected walk keeps is a page from the bound. */
  lemma KeptIsPage(bars: seq<Bar>, ms: int, from: int, bound: int, got: seq<Bar>, f: nat)
    requires 0 < ms && Spaced(bars, ms) && Walked(bars, from, bound, got) && Splits(bars, bound, f)
    ensures Kept(got, bound) == [] || PageAt(bars, f, Kept(got, bound))
  {
    var k: nat :| Holding(bars, from, k, got) && Connects(bars, k, bound);
    HoldingIsSlice(bars, from, k, got);
    var e: nat :| k <= e <= |bars| && got == bars[k..e];
    KeptPage(bars, ms, bound, f, k, e);
  }

  /** A connected walk is stored, and time has passed since its first page. */
  lemma WalkFinal(t: Tables, series: nat, tf: Tf, v: Moment, base: Moment, w: Moment, m: Option<int>, bound: int,
                  start: Option<int>, got: seq<Bar>, now: int, latest: int)
    requires Right(t, series, tf, v, bound) && Later(v, base, TfMs(tf)) && Later(base, w, TfMs(tf))
    requires Good(base, TfMs(tf)) && Good(w, TfMs(tf)) && now <= v.clock
    requires Front(Opens(t, series, tf), m, v.bars, TfMs(tf), bound, start)
    requires Walked(base.bars, now + TfMs(tf), bound, got)
    requires Opens(RestAll(t, series, tf, Kept(got, bound), now, latest), series, tf) <= Times(base.bars)
    ensures Final(RestAll(t, series, tf, Kept(got, bound), now, latest), series, tf, w)
  {
    var keep := Kept(got, bound);
    var u := RestAll(t, series, tf, keep, now, latest);
    StaysFinal(t, series, tf, v, base, bound, m, start);
    FrontBelow(Opens(t, series, tf), m, v.bars, TfMs(tf), bound, start);
    FirstAtSplits(base.bars, TfMs(tf), bound);
    KeptIsPage(base.bars, TfMs(tf), now + TfMs(tf), bound, got, FirstAt(base.bars, bound));
    LaterGrown(v, base, TfMs(tf));
    if keep != [] {
      PageFinal(t, series, tf, base, bound, FirstAt(base.bars, bound), keep, now, latest);
    }
    FinalLater(u, series, tf, base, w);
  }

  lemma FinalLater(t: Tables, series: nat, tf: Tf, v: Moment, w: Moment)
    requires Final(t, series, tf, v) && Later(v, w, TfMs(tf)) && Good(w, TfMs(tf))
    requires Opens(t, series, tf) <= Times(v.bars)
    ensures Final(t, series, tf, w)
  {
    assert Opened(Seal);
    forall y | y in Opens(t, series, tf)
      ensures Right(t, series, tf, w, y)
    {
      RightLater(t, series, tf, v, w, y);
    }
  }

  method StoreWalk(store: Store, series: nat, tf: Tf, now: int, bound: int, got: seq<Bar>, ghost m: Option<int>,
                   ghost seen: Moment, ghost base: Moment, ghost v: Moment, ghost start: Option<int>)
    requires Good(base, TfMs(tf)) && Good(v, TfMs(tf)) && Later(seen, base, TfMs(tf)) && Later(base, v, TfMs(tf))
    requires Walked(base.bars, now + TfMs(tf), bound, got)
    requires Front(Opens(store.tables, series, tf), m, seen.bars, TfMs(tf), bound, start)
    modifies store
    ensures store.tables == RestAll(old(store.tables), series, tf, Kept(got, bound), now, LatestOpen(now, None))
    ensures Opens(store.tables, series, tf)
            == Opens(old(store.tables), series, tf)
               + Stretch(base.bars, bound, Min(now + TfMs(tf), LatestOpen(now, None) + 1))
    ensures Sane(Opens(store.tables, series, tf), v.bars, start)
    ensures Right(old(store.tables), series, tf, seen, bound) && now <= seen.clock ==>
              Final(store.tables, series, tf, v)
  {
    ghost var t := store.tables;
    LaterGrown(seen, base, TfMs(tf));
    LaterGrown(base, v, TfMs(tf));
    WalkStores(Opens(t, series, tf), m, seen.bars, base.bars, v.bars, TfMs(tf), now + TfMs(tf), bound, got,
               LatestOpen(now, None), start);
    StorePage(store, series, tf, Kept(got, bound), now, None);
    if Right(t, series, tf, seen, bound) && now <= seen.clock {
      WalkFinal(t, series, tf, seen, base, v, m, bound, start, got, now, LatestOpen(now, None));
    }
  }

  /** OKX's fill: nothing is stored unless the walk connects, and then everything the venue has from
      the frontier to the open bar is; behind the frontier every bar has the venue's final values. */
  method FillOkxBackward(store: Store, venue: Venue, series: nat, tf: Tf, now: int, start: int, budget: nat)
    returns (r: Outcome, ghost m: Option<int>, ghost base: Moment, ghost walked: seq<Bar>)
    requires venue.Valid() && venue.ms == TfMs(tf)
    requires NoHole(Opens(store.tables, series, tf), venue.bars)
    modifies store, venue
    ensures venue.Valid() && Later(old(venue.Now()), venue.Now(), venue.ms)
    ensures Later(old(venue.Now()), base, venue.ms) && Later(base, venue.Now(), venue.ms)
    ensures Sane(Opens(store.tables, series, tf), venue.bars, StartOf(Opens(old(store.tables), series, tf), start))
    ensures r != Done ==> store.tables == old(store.tables)
    ensures IsMax(Opens(old(store.tables), series, tf), m)
    ensures r == Done ==>
              var bound := if m.Some? then m.value else start;
              && Walked(base.bars, now + TfMs(tf), bound, walked)
              && store.tables
                 == RestAll(old(store.tables), series, tf, Kept(walked, bound), now, LatestOpen(now, None))
              && Opens(store.tables, series, tf)
              == Opens(old(store.tables), series, tf)
                 + Stretch(base.bars, bound, Min(now + TfMs(tf), LatestOpen(now, None) + 1))
    ensures Final(old(store.tables), series, tf, old(venue.Now())) && now <= old(venue.clock) ==>
              Final(store.tables, series, tf, venue.Now())
    ensures r == BudgetOut ==>
              AtLeast(base.bars, (if m.Some? then m.value else start) + 1, now + TfMs(tf), budget * OKX_PAGE_LIMIT)
    ensures venue.failures == old(venue.failures) + if r == Failed then 1 else 0
    ensures venue.requests <= old(venue.requests) + budget
  {
    var ms := TfMs(tf);
    ghost var opens, seen := Opens(store.tables, series, tf), venue.Now();
    ghost var from := StartOf(opens, start);
    ghost var right := Final(store.tables, series, tf, seen) && now <= seen.clock;
    var last := MaxOpen(store.tables, series, tf);
    var bound := if last.Some? then last.value else start;
    m := last;
    FrontBegins(opens, m, seen.bars, ms, start);
    if right {
      FinalBegins(store.tables, series, tf, seen, m, start);
    }
    var got;
    r, got, base := WalkBack(venue, now + ms, bound, budget);
    walked := got;
    LaterTrans(seen, base, venue.Now(), ms);
    venue.IsGood();
    if r != Done {
      LaterGrown(seen, venue.Now(), ms);
      FrontGrows(opens, m, seen.bars, venue.bars, ms, bound, from);
      FrontIsSane(opens, m, venue.bars, ms, bound, from);
      if right {
        StaysFinal(store.tables, series, tf, seen, venue.Now(), bound, m, from);
      }
      return;
    }
    StoreWalk(store, series, tf, now, bound, got, m, seen, base, venue.Now(), from);
  }

  // -- whole runs --------------------------------------------------------

  /** A cycle begins with its clock `behind` the venue's, or ahead of it if that is negative. */
  datatype Cycle = Cycle(backward: bool, behind: int, start: int, budget: nat)

  lemma AtMostAll(bars: seq<Bar>, lo: int, e: int, n: nat)
    requires AtLeast(bars, lo, e, n)
    ensures n <= |bars|
  {
    assert Opened(Seal);
    SmallerSet(Stretch(bars, lo, e), Times(bars));
    TimesSize(bars);
  }

  lemma {:induction false} TimesSize(bars: seq<Bar>)
    ensures |Times(bars)| <= |bars|
  {
    if bars != [] {
      var n := |bars| - 1;
      TimesSize(bars[..n]);
      assert Times(bars) == Times(bars[..n]) + {bars[n].ts} by {
        assert forall i :: 0 <= i < n ==> bars[..n][i] == bars[i];
      }
    }
  }

  lemma CaughtUpEarlier(opens: set<int>, a: seq<Bar>, b: seq<Bar>, lo: int, now: int)
    requires CaughtUp(opens, b, lo, now) && Grown(a, b)
    ensures CaughtUp(opens, a, lo, now)
  {
    assert Opened(Seal);
    StretchWithin(a, b, lo, now + 1, now + 1);
  }

  /** A connected walk stores everything up to `now`. */
  lemma WalkCatchesUp(opens: set<int>, bars: seq<Bar>, bound: int, now: int, e: int)
    requires now < e && Stretch(bars, bound, e) <= opens
    ensures CaughtUp(opens, bars, bound, now)
  {
    assert Grown(bars, bars);
    StretchWithin(bars, bars, bound, now + 1, e);
  }

  /** Every bar the venue had between a stored one and `now` is stored. */
  ghost predicate AllStored(stored: set<int>, opens: set<int>, bars: seq<Bar>, now: int) {
    forall x: Seal {:trigger Opened(x)} ::
      forall y, t :: y in stored && t in Times(bars) && y <= t <= now ==> t in opens
  }

  lemma CaughtUpIsAll(stored: set<int>, begun: set<int>, opens: set<int>, a: seq<Bar>, b: seq<Bar>, start: int, lo: int,
                      early: int, now: int)
    requires stored <= begun <= opens && Grown(a, b) && Sane(begun, b, None) && FrontierOf(begun, start, lo)
    requires CaughtUp(opens, b, lo, now) && early <= now
    ensures AllStored(stored, opens, a, early)
  {
    assert Opened(Seal);
    PrefixTimes(a, b);
    forall y, t | y in stored && t in Times(a) && y <= t <= early
      ensures t in opens
    {
      var i :| 0 <= i < |b| && b[i].ts == t;
      if lo <= t {
        assert t in Stretch(b, lo, now + 1);
      } else {
        assert y in begun && lo in begun && t in Times(b);
      }
    }
  }

  /** No cycle's clock was ahead of the venue's. */
  ghost predicate NeverAhead(cycles: seq<Cycle>) { forall i :: 0 <= i < |cycles| ==> 0 <= cycles[i].behind }

  lemma NoHoleIsSane(opens: set<int>, bars: seq<Bar>)
    requires NoHole(opens, bars)
    ensures Sane(opens, bars, None)
  {
  }

  /** What any number of cycles keeps. */
  ghost predicate Cycled(t0: Tables, t: Tables, series: nat, tf: Tf, begun: Moment, v: Moment, right: bool) {
    forall x: Seal {:trigger Opened(x)} ::
      && Later(begun, v, TfMs(tf)) && Sane(Opens(t, series, tf), v.bars, None)
      && Opens(t0, series, tf) <= Opens(t, series, tf)
      && (Final(t0, series, tf, begun) && right ==> Final(t, series, tf, v))
  }

  lemma CycledMeans(t0: Tables, t: Tables, series: nat, tf: Tf, begun: Moment, v: Moment, right: bool)
    requires Cycled(t0, t, series, tf, begun, v, right)
    ensures Later(begun, v, TfMs(tf)) && Sane(Opens(t, series, tf), v.bars, None)
    ensures Grown(begun.bars, v.bars) && begun.clock <= v.clock
    ensures Opens(t0, series, tf) <= Opens(t, series, tf)
    ensures Final(t0, series, tf, begun) && right ==> Final(t, series, tf, v)
  {
    assert Opened(Seal);
  }

  lemma CycledBegins(t: Tables, series: nat, tf: Tf, v: Moment, right: bool)
    requires NoHole(Opens(t, series, tf), v.bars)
    ensures Cycled(t, t, series, tf, v, v, right)
  {
    LaterItself(v, TfMs(tf));
    NoHoleIsSane(Opens(t, series, tf), v.bars);
  }

  lemma CycledOn(t0: Tables, t: Tables, u: Tables, series: nat, tf: Tf, begun: Moment, v: Moment, w: Moment,
                 right: bool)
    requires Cycled(t0, t, series, tf, begun, v, right) && Later(v, w, TfMs(tf))
    requires Sane(Opens(u, series, tf), w.bars, None)
    requires Opens(t, series, tf) <= Opens(u, series, tf)
    requires Final(t, series, tf, v) && right ==> Final(u, series, tf, w)
    ensures Cycled(t0, u, series, tf, begun, w, right)
  {
    assert Opened(Seal);
    LaterTrans(begun, v, w, TfMs(tf));
  }

  lemma CycledSane(t0: Tables, t: Tables, series: nat, tf: Tf, begun: Moment, v: Moment, right: bool)
    requires Cycled(t0, t, series, tf, begun, v, right)
    ensures Sane(Opens(t, series, tf), v.bars, None)
  {
    assert Opened(Seal);
  }

  /** A cycle that catches up has stored whatever the venue had when the cycles began. */
  lemma CycledStored(t0: Tables, t: Tables, u: Tables, series: nat, tf: Tf, begun: Moment, v: Moment, right: bool,
                     c: Cycle, lo0: int, now: int)
    requires Cycled(t0, t, series, tf, begun, v, right) && Opens(t, series, tf) <= Opens(u, series, tf)
    requires FrontierOf(Opens(t, series, tf), c.start, lo0) && v.clock - c.behind <= now
    ensures CaughtUp(Opens(u, series, tf), v.bars, lo0, now) ==>
              AllStored(Opens(t0, series, tf), Opens(u, series, tf), begun.bars, begun.clock - c.behind)
  {
    CycledMeans(t0, t, series, tf, begun, v, right);
    if CaughtUp(Opens(u, series, tf), v.bars, lo0, now) {
      CaughtUpIsAll(Opens(t0, series, tf), Opens(t, series, tf), Opens(u, series, tf), begun.bars, v.bars, c.start,
                    lo0, begun.clock - c.behind, now);
    }
  }

  /** Any run of cycles, forward or backward, with any time between them, each cut short wherever its
      budget or the venue cuts it: the series never gets a hole, and never loses a bar. Unless a cycle's
      clock was ahead of the venue's, every bar behind the frontier has the venue's final values. And if no
      request failed and the last cycle's budget was enough, the series has caught up. */
  method Cycles(store: Store, venue: Venue, series: nat, tf: Tf, cycles: seq<Cycle>)
    requires venue.Valid() && venue.ms == TfMs(tf)
    requires NoHole(Opens(store.tables, series, tf), venue.bars)
    modifies store, venue
    ensures venue.Valid() && Later(old(venue.Now()), venue.Now(), venue.ms)
    ensures NoHole(Opens(store.tables, series, tf), venue.bars)
    ensures Opens(old(store.tables), series, tf) <= Opens(store.tables, series, tf)
    ensures Final(old(store.tables), series, tf, old(venue.Now())) && NeverAhead(cycles) ==>
              Final(store.tables, series, tf, venue.Now())
    ensures venue.failures == old(venue.failures) && cycles != [] && |venue.bars| < cycles[|cycles| - 1].budget ==>
              AllStored(Opens(old(store.tables), series, tf), Opens(store.tables, series, tf), old(venue.bars),
                        old(venue.clock) - cycles[|cycles| - 1].behind)
  {
    ghost var begun, t0, right := venue.Now(), store.tables, NeverAhead(cycles);
    CycledBegins(t0, series, tf, begun, right);
    for i := 0 to |cycles|
      invariant venue.Valid() && old(venue.failures) <= venue.failures
      invariant Cycled(t0, store.tables, series, tf, begun, venue.Now(), right)
      invariant venue.failures == old(venue.failures) && i > 0 && |venue.bars| < cycles[i - 1].budget ==>
                  AllStored(Opens(t0, series, tf), Opens(store.tables, series, tf), begun.bars,
                            begun.clock - cycles[i - 1].behind)
    {
      ghost var seen, t := venue.Now(), store.tables;
      CycledSane(t0, t, series, tf, begun, seen, right);
      ghost var now, lo0 := RunCycle(store, venue, series, tf, cycles[i]);
      assert right ==> 0 <= cycles[i].behind;
      CycledOn(t0, t, store.tables, series, tf, begun, seen, venue.Now(), right);
      CycledStored(t0, t, store.tables, series, tf, begun, seen, right, cycles[i], lo0, now);
      LaterGrown(seen, venue.Now(), venue.ms);
    }
    CycledMeans(t0, store.tables, series, tf, begun, venue.Now(), right);
    SaneIsNoHole(Opens(store.tables, series, tf), venue.bars, None);
  }

  /** One cycle; `now` is its clock, `lo0` the frontier it found or the start of an empty series. Unfailed
      and with a budget larger than the venue's history, it catches up. */
  method RunCycle(store: Store, venue: Venue, series: nat, tf: Tf, c: Cycle) returns (ghost now: int, ghost lo0: int)
    requires venue.Valid() && venue.ms == TfMs(tf)
    requires Sane(Opens(store.tables, series, tf), venue.bars, None)
    modifies store, venue
    ensures venue.Valid() && Later(old(venue.Now()), venue.Now(), venue.ms)
    ensures Sane(Opens(store.tables, series, tf), venue.bars, None)
    ensures Opens(old(store.tables), series, tf) <= Opens(store.tables, series, tf)
    ensures Final(old(store.tables), series, tf, old(venue.Now())) && 0 <= c.behind ==>
              Final(store.tables, series, tf, venue.Now())
    ensures FrontierOf(Opens(old(store.tables), series, tf), c.start, lo0) && old(venue.clock) - c.behind <= now
    ensures old(venue.failures) <= venue.failures
    ensures venue.failures == old(venue.failures) && |venue.bars| < c.budget ==>
              CaughtUp(Opens(store.tables, series, tf), old(venue.bars), lo0, now)
  {
    ghost var t, begun := store.tables, venue.Now();
    venue.Grow();
    ghost var seen := venue.Now();
    venue.IsGood();
    LaterGrown(begun, seen, venue.ms);
    SaneGrows(Opens(t, series, tf), begun.bars, seen.bars, venue.ms, None);
    SaneIsNoHole(Opens(t, series, tf), begun.bars, None);
    if Final(t, series, tf, begun) {
      FinalLater(t, series, tf, begun, seen);
    }
    var clock := venue.clock - c.behind;
    now := clock;
    if c.backward {
      lo0 := BackwardCycle(store, venue, series, tf, clock, c.start, c.budget);
    } else {
      lo0 := ForwardCycle(store, venue, series, tf, clock, c.start, c.budget);
    }
    LaterTrans(begun, seen, venue.Now(), venue.ms);
    SaneWithout(Opens(store.tables, series, tf), venue.bars, StartOf(Opens(t, series, tf), c.start));
    if CaughtUp(Opens(store.tables, series, tf), seen.bars, lo0, now) {
      CaughtUpEarlier(Opens(store.tables, series, tf), begun.bars, seen.bars, lo0, now);
    }
  }

  method ForwardCycle(store: Store, venue: Venue, series: nat, tf: Tf, now: int, start: int, budget: nat)
    returns (ghost lo0: int)
    requires venue.Valid() && venue.ms == TfMs(tf)
    requires Sane(Opens(store.tables, series, tf), venue.bars, None)
    modifies store, venue
    ensures venue.Valid() && Later(old(venue.Now()), venue.Now(), venue.ms)
    ensures Opens(old(store.tables), series, tf) <= Opens(store.tables, series, tf)
    ensures Sane(Opens(store.tables, series, tf), venue.bars, StartOf(Opens(old(store.tables), series, tf), start))
    ensures Final(old(store.tables), series, tf, old(venue.Now())) && now <= old(venue.clock) ==>
              Final(store.tables, series, tf, venue.Now())
    ensures FrontierOf(Opens(old(store.tables), series, tf), start, lo0) && old(venue.failures) <= venue.failures
    ensures venue.failures == old(venue.failures) && |venue.bars| < budget ==>
              CaughtUp(Opens(store.tables, series, tf), old(venue.bars), lo0, now)
  {
    ghost var seen := venue.Now();
    SaneIsNoHole(Opens(store.tables, series, tf), venue.bars, None);
    var r, _, lo := FillForward(store, venue, series, tf, now, start, budget);
    lo0 := lo;
    LaterGrown(seen, venue.Now(), venue.ms);
    if r == BudgetOut {
      AtMostAll(venue.bars, lo0, now + 1, budget);
    } else if r == Done {
      CaughtUpEarlier(Opens(store.tables, series, tf), seen.bars, venue.bars, lo0, now);
    }
  }

  method BackwardCycle(store: Store, venue: Venue, series: nat, tf: Tf, now: int, start: int, budget: nat)
    returns (ghost lo0: int)
    requires venue.Valid() && venue.ms == TfMs(tf)
    requires Sane(Opens(store.tables, series, tf), venue.bars, None)
    modifies store, venue
    ensures venue.Valid() && Later(old(venue.Now()), venue.Now(), venue.ms)
    ensures Opens(old(store.tables), series, tf) <= Opens(store.tables, series, tf)
    ensures Sane(Opens(store.tables, series, tf), venue.bars, StartOf(Opens(old(store.tables), series, tf), start))
    ensures Final(old(store.tables), series, tf, old(venue.Now())) && now <= old(venue.clock) ==>
              Final(store.tables, series, tf, venue.Now())
    ensures FrontierOf(Opens(old(store.tables), series, tf), start, lo0) && old(venue.failures) <= venue.failures
    ensures venue.failures == old(venue.failures) && |venue.bars| < budget ==>
              CaughtUp(Opens(store.tables, series, tf), old(venue.bars), lo0, now)
  {
    ghost var seen := venue.Now();
    SaneIsNoHole(Opens(store.tables, series, tf), venue.bars, None);
    var r, m, base, _ := FillOkxBackward(store, venue, series, tf, now, start, budget);
    lo0 := if m.Some? then m.value else start;
    LaterGrown(seen, base, venue.ms);
    LaterGrown(base, venue.Now(), venue.ms);
    if r == BudgetOut {
      AtMostAll(base.bars, lo0 + 1, now + TfMs(tf), budget * OKX_PAGE_LIMIT);
    } else if r == Done {
      WalkCatchesUp(Opens(store.tables, series, tf), base.bars, lo0, now,
                    Min(now + TfMs(tf), LatestOpen(now, None) + 1));
      CaughtUpEarlier(Opens(store.tables, series, tf), seen.bars, base.bars, lo0, now);
    }
  }

  lemma SaneWithout(opens: set<int>, bars: seq<Bar>, start: Option<int>)
    requires Sane(opens, bars, start)
    ensures Sane(opens, bars, None)
  {
    assert Opened(Seal);
  }

  lemma SaneIsNoHole(opens: set<int>, bars: seq<Bar>, start: Option<int>)
    requires Sane(opens, bars, start)
    ensures NoHole(opens, bars)
  {
    assert Opened(Seal);
  }

  /** Why the clock matters: of a bar first seen with one set of values, and later with another, the
      first stay exactly when the clock had already passed its close - open or not at the venue. */
  lemma AheadSticks(t: Tables, k: Key, early: Ohlcv, late: Ohlcv, now: int, after: int, latest: int)
    requires k !in t.rows && k.open <= latest && early != late
    ensures var u := RestOne(RestOne(t, k, early, now, latest), k, late, after, latest);
            && k in u.rows
            && (u.rows[k].bar == early <==> k.open + TfMs(k.tf) <= now)
            && (u.rows[k].bar == late <==> now < k.open + TfMs(k.tf))
  {
  }
}
