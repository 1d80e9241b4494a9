/** The derived timeframes: one pass over the sorted base rows writes the aggregate of every
    complete, closed window. */
module Derive {
  import opened Options
  import opened Fixed
  import opened Sealing
  import opened Sorting
  import opened CandleStore

  /** A base row as the query returns it. */
  datatype Base = Base(series: nat, open: int, bar: Ohlcv)

  /** One derivation: the output timeframe, its base, base bars per window. */
  datatype Spec = Spec(out: Tf, base: Tf, k: nat)

  const SPECS: seq<Spec> := [Spec(M5, M1, 5), Spec(M15, M1, 15), Spec(H4, H1, 4)]

  predicate Lawful(d: Spec) { d.k > 0 && TfMs(d.out) == d.k * TfMs(d.base) && !IsOutput(d.base) }

  predicate IsOutput(tf: Tf) { tf == M5 || tf == M15 || tf == H4 }

  lemma SpecsLawful()
    ensures forall i :: 0 <= i < |SPECS| ==> Lawful(SPECS[i]) && IsOutput(SPECS[i].out)
    ensures forall i, j :: 0 <= i < j < |SPECS| ==> SPECS[i].out != SPECS[j].out
  {
  }

  function WindowOf(open: int, ms: int): int
    requires 0 < ms
  {
    open - open % ms
  }

  // -- the query ---------------------------------------------------------

  ghost predicate IsBaseKey(t: Tables, tf: Tf, floor: Option<int>, k: Key) {
    && k in t.rows && k.tf == tf && t.rows[k].source != DerivedBar
    && (floor.Some? ==> floor.value <= k.open)
  }

  predicate Before(x: Base, y: Base) { x.series < y.series || (x.series == y.series && x.open < y.open) }

  ghost predicate StrictlySorted(rows: seq<Base>) {
    forall i, j :: 0 <= i < j < |rows| ==> Before(rows[i], rows[j])
  }

  /** `rows` is the query's answer: the base rows from the floor on, in table order. */
  ghost predicate Answers(t: Tables, tf: Tf, floor: Option<int>, rows: seq<Base>) {
    && StrictlySorted(rows)
    && (forall r :: r in rows ==> IsBaseKey(t, tf, floor, Key(r.series, tf, r.open))
                                  && t.rows[Key(r.series, tf, r.open)].bar == r.bar)
    && (forall k :: IsBaseKey(t, tf, floor, k) ==> Base(k.series, k.open, t.rows[k].bar) in rows)
  }

  // -- the reference -----------------------------------------------------

  predicate InWindow(r: Base, series: nat, w: int, ms: int)
    requires 0 < ms
  {
    r.series == series && WindowOf(r.open, ms) == w
  }

  /** The rows of one series' window, in order. */
  function Group(rows: seq<Base>, series: nat, w: int, ms: int): seq<Base>
    requires 0 < ms
  {
    if rows == [] then []
    else
      var last := rows[|rows| - 1];
      Group(rows[..|rows| - 1], series, w, ms) + (if InWindow(last, series, w, ms) then [last] else [])
  }

  function MaxHigh(g: seq<Base>): int
    requires g != []
  {
    if |g| == 1 then g[0].bar.h else Max(MaxHigh(g[..|g| - 1]), g[|g| - 1].bar.h)
  }

  function MinLow(g: seq<Base>): int
    requires g != []
  {
    if |g| == 1 then g[0].bar.l else Min(MinLow(g[..|g| - 1]), g[|g| - 1].bar.l)
  }

  /** The volumes' sum; one unknown volume makes it unknown. */
  function Volume(g: seq<Base>): Option<int> {
    if g == [] then Some(0)
    else
      var v, last := Volume(g[..|g| - 1]), g[|g| - 1].bar.v;
      if v.None? || last.None? then None else Some(v.value + last.value)
  }

  function Aggregate(g: seq<Base>): Ohlcv
    requires g != []
  {
    Ohlcv(g[0].bar.o, MaxHigh(g), MinLow(g), g[|g| - 1].bar.c, Volume(g))
  }

  /** What is known of the volumes, added up from the first bar on. */
  ghost function TotalVolume(g: seq<Base>): int {
    if g == [] then 0 else (if g[0].bar.v.Some? then g[0].bar.v.value else 0) + TotalVolume(g[1..])
  }

  lemma {:induction false} TotalVolumeSnoc(g: seq<Base>, r: Base)
    ensures TotalVolume(g + [r]) == TotalVolume(g) + if r.bar.v.Some? then r.bar.v.value else 0
  {
    if g == [] {
      assert [r][1..] == [] && [] + [r] == [r];
    } else {
      assert (g + [r])[1..] == g[1..] + [r];
      TotalVolumeSnoc(g[1..], r);
    }
  }

  lemma {:induction false} VolumeIsTotal(g: seq<Base>)
    ensures Volume(g).Some? ==> Volume(g).value == TotalVolume(g)
  {
    if g != [] {
      VolumeIsTotal(g[..|g| - 1]);
      TotalVolumeSnoc(g[..|g| - 1], g[|g| - 1]);
      assert g == g[..|g| - 1] + [g[|g| - 1]];
    }
  }

  lemma {:induction false} HighIsGreatest(g: seq<Base>)
    requires g != []
    ensures (forall r :: r in g ==> r.bar.h <= MaxHigh(g)) && exists r :: r in g && r.bar.h == MaxHigh(g)
  {
    var last := g[|g| - 1];
    assert last in g;
    if |g| > 1 {
      var front := g[..|g| - 1];
      HighIsGreatest(front);
      assert g == front + [last];
      var x :| x in front && x.bar.h == MaxHigh(front);
      assert x in g;
    }
  }

  lemma {:induction false} LowIsLeast(g: seq<Base>)
    requires g != []
    ensures (forall r :: r in g ==> MinLow(g) <= r.bar.l) && exists r :: r in g && r.bar.l == MinLow(g)
  {
    var last := g[|g| - 1];
    assert last in g;
    if |g| > 1 {
      var front := g[..|g| - 1];
      LowIsLeast(front);
      assert g == front + [last];
      var x :| x in front && x.bar.l == MinLow(front);
      assert x in g;
    }
  }

  lemma {:induction false} VolumeKnownLaw(g: seq<Base>)
    ensures Volume(g).Some? <==> forall r :: r in g ==> r.bar.v.Some?
  {
    if g != [] {
      VolumeKnownLaw(g[..|g| - 1]);
      assert g == g[..|g| - 1] + [g[|g| - 1]];
      assert g[|g| - 1] in g;
    }
  }

  /** First open, greatest high, least low, last close, and the volumes' sum, known exactly when all are. */
  lemma AggregateLaw(g: seq<Base>)
    requires g != []
    ensures var a := Aggregate(g);
            && a.o == g[0].bar.o && a.c == g[|g| - 1].bar.c
            && (forall r :: r in g ==> r.bar.h <= a.h && a.l <= r.bar.l)
            && (exists r :: r in g && r.bar.h == a.h) && (exists r :: r in g && r.bar.l == a.l)
            && (a.v.Some? <==> forall r :: r in g ==> r.bar.v.Some?)
            && (a.v.Some? ==> a.v.value == TotalVolume(g))
  {
    VolumeIsTotal(g);
    VolumeKnownLaw(g);
    HighIsGreatest(g);
    LowIsLeast(g);
  }

  /** What the pass should leave at an output key: the aggregate where the window is complete and
      closed and the key is free or derived, otherwise whatever was there. */
  function Expected(t: Tables, rows: seq<Base>, d: Spec, now: int, key: Key): Option<Row> {
    if key.tf != d.out then Lookup(t, key)
    else Written(t, d, now, key, Group(rows, key.series, key.open, TfMs(d.out)))
  }

  /** One key against its window's group: a row whose values do not change keeps its fetch time. */
  function Written(t: Tables, d: Spec, now: int, key: Key, g: seq<Base>): Option<Row> {
    var was := Lookup(t, key);
    if |g| != d.k || g == [] || key.open + TfMs(d.out) > now then was
    else if was.None? then Some(Row(Aggregate(g), None, DerivedBar, now))
    else if was.value.source != DerivedBar || was.value.bar == Aggregate(g) then was
    else Some(was.value.(bar := Aggregate(g), fetched := now))
  }

  ghost predicate DerivedFrom(t: Tables, u: Tables, rows: seq<Base>, d: Spec, now: int) {
    forall x: Seal {:trigger Opened(x)} ::
      u.conflicts == t.conflicts && forall key :: Lookup(u, key) == Expected(t, rows, d, now, key)
  }

  ghost predicate AllInside(rows: seq<Base>, series: nat, w: int, ms: int)
    requires 0 < ms
  {
    forall r :: r in rows ==> InWindow(r, series, w, ms)
  }

  ghost predicate NoneInside(rows: seq<Base>, series: nat, w: int, ms: int)
    requires 0 < ms
  {
    forall r :: r in rows ==> !InWindow(r, series, w, ms)
  }

  // -- groups ------------------------------------------------------------

  lemma {:induction false} GroupAppend(a: seq<Base>, b: seq<Base>, series: nat, w: int, ms: int)
    requires 0 < ms
    ensures Group(a + b, series, w, ms) == Group(a, series, w, ms) + Group(b, series, w, ms)
  {
    if b == [] {
      assert a + b == a;
    } else {
      GroupAppend(a, b[..|b| - 1], series, w, ms);
      assert (a + b)[..|a + b| - 1] == a + b[..|b| - 1];
    }
  }

  lemma {:induction false} GroupOfAll(b: seq<Base>, series: nat, w: int, ms: int)
    requires 0 < ms && forall r :: r in b ==> InWindow(r, series, w, ms)
    ensures Group(b, series, w, ms) == b
  {
    if b != [] {
      GroupOfAll(b[..|b| - 1], series, w, ms);
      assert b == b[..|b| - 1] + [b[|b| - 1]];
    }
  }

  lemma {:induction false} GroupOfNone(b: seq<Base>, series: nat, w: int, ms: int)
    requires 0 < ms && forall r :: r in b ==> !InWindow(r, series, w, ms)
    ensures Group(b, series, w, ms) == []
  {
    if b != [] {
      GroupOfNone(b[..|b| - 1], series, w, ms);
    }
  }

  /** Appending a whole window's rows changes that window's group and no other. */
  lemma GroupStep(before: seq<Base>, bucket: seq<Base>, series: nat, w: int, ms: int, key: Key)
    requires 0 < ms
    requires forall r :: r in bucket ==> InWindow(r, series, w, ms)
    requires forall r :: r in before ==> !InWindow(r, series, w, ms)
    ensures Group(before + bucket, key.series, key.open, ms)
         == if key.series == series && key.open == w then bucket else Group(before, key.series, key.open, ms)
    ensures key.series == series && key.open == w ==> Group(before, key.series, key.open, ms) == []
  {
    GroupAppend(before, bucket, key.series, key.open, ms);
    if key.series == series && key.open == w {
      GroupOfAll(bucket, series, w, ms);
      GroupOfNone(before, series, w, ms);
    } else {
      GroupOfNone(bucket, key.series, key.open, ms);
    }
  }

  lemma WindowMonotone(x: int, y: int, ms: int)
    requires 0 < ms && x <= y
    ensures WindowOf(x, ms) <= WindowOf(y, ms) <= y
  {
    DivMono(x, y, ms);
    assert x == (x / ms) * ms + x % ms && y == (y / ms) * ms + y % ms;
    MulMono(x / ms, y / ms, ms);
  }

  /** In sorted rows a window is one unbroken stretch: once it has been left it does not return. */
  lemma WindowUnbroken(rows: seq<Base>, m: nat, i: nat, ms: int)
    requires 0 < ms && StrictlySorted(rows) && m < i < |rows|
    requires !InWindow(rows[i - 1], rows[i].series, WindowOf(rows[i].open, ms), ms)
    ensures !InWindow(rows[m], rows[i].series, WindowOf(rows[i].open, ms), ms)
  {
    assert Before(rows[i - 1], rows[i]);
    if m < i - 1 {
      assert Before(rows[m], rows[i - 1]);
      if rows[m].series == rows[i].series {
        WindowMonotone(rows[m].open, rows[i - 1].open, ms);
        WindowMonotone(rows[i - 1].open, rows[i].open, ms);
      }
    }
  }

  // -- the pass ----------------------------------------------------------

  /** Writes one finished bucket. */
  method Flush(store: Store, d: Spec, now: int, series: nat, w: int, bucket: seq<Base>)
    requires Lawful(d) && bucket != []
    modifies store
    ensures store.tables.conflicts == old(store.tables).conflicts
    ensures var key := Key(series, d.out, w);
            && (forall k :: k != key ==> Lookup(store.tables, k) == Lookup(old(store.tables), k))
            && Lookup(store.tables, key) == Written(old(store.tables), d, now, key, bucket)
  {
    if |bucket| != d.k {
      return;
    }
    if w + TfMs(d.out) > now {
      return;
    }
    var bar := Aggregate(bucket);
    var key := Key(series, d.out, w);
    if key !in store.tables.rows {
      store.tables := store.tables.(rows := store.tables.rows[key := Row(bar, None, DerivedBar, now)]);
      return;
    }
    var row := store.tables.rows[key];
    if row.source != DerivedBar || row.bar == bar {
      return;
    }
    store.tables := store.tables.(rows := store.tables.rows[key := row.(bar := bar, fetched := now)]);
  }

  lemma FlushDerives(t: Tables, u: Tables, v: Tables, before: seq<Base>, bucket: seq<Base>,
                     d: Spec, now: int, series: nat, w: int)
    requires Lawful(d) && DerivedFrom(t, u, before, d, now)
    requires AllInside(bucket, series, w, TfMs(d.out)) && NoneInside(before, series, w, TfMs(d.out))
    requires v.conflicts == u.conflicts
    requires forall k :: k != Key(series, d.out, w) ==> Lookup(v, k) == Lookup(u, k)
    requires Lookup(v, Key(series, d.out, w)) == Written(u, d, now, Key(series, d.out, w), bucket)
    ensures DerivedFrom(t, v, before + bucket, d, now)
  {
    assert Opened(Seal);
    forall key
      ensures Lookup(v, key) == Expected(t, before + bucket, d, now, key)
    {
      assert Lookup(u, key) == Expected(t, before, d, now, key);
      GroupStep(before, bucket, series, w, TfMs(d.out), key);
    }
  }

  /** One pass over the sorted rows leaves exactly what the windows' groups say. */
  method DeriveRows(store: Store, rows: seq<Base>, d: Spec, now: int)
    requires Lawful(d) && StrictlySorted(rows)
    modifies store
    ensures DerivedFrom(old(store.tables), store.tables, rows, d, now)
  {
    var ms := TfMs(d.out);
    ghost var t0 := store.tables;
    ghost var j := 0;
    var bucket: seq<Base> := [];
    var series, w := 0, 0;
    NothingDerived(t0, d, now);
    assert rows[..0] == [];
    var i := 0;
    while i < |rows|
      invariant 0 <= j <= i <= |rows| && (j == i <==> i == 0)
      invariant bucket == rows[j..i]
      invariant AllInside(bucket, series, w, ms) && (i > 0 ==> NoneInside(rows[..j], series, w, ms))
      invariant DerivedFrom(t0, store.tables, rows[..j], d, now)
    {
      var row := rows[i];
      if bucket == [] || !InWindow(row, series, w, ms) {
        if bucket != [] {
          ghost var u := store.tables;
          Flush(store, d, now, series, w, bucket);
          FlushDerives(t0, u, store.tables, rows[..j], bucket, d, now, series, w);
          assert rows[..j] + bucket == rows[..i];
          assert rows[i - 1] in bucket;
          WindowIsNew(rows, i, ms);
        }
        j := i;
        bucket := [];
        series, w := row.series, WindowOf(row.open, ms);
      }
      bucket := bucket + [row];
      i := i + 1;
    }
    if bucket != [] {
      ghost var u := store.tables;
      Flush(store, d, now, series, w, bucket);
      FlushDerives(t0, u, store.tables, rows[..j], bucket, d, now, series, w);
      assert rows[..j] + bucket == rows;
    } else {
      assert rows[..0] == rows;
    }
  }

  lemma NothingDerived(t: Tables, d: Spec, now: int)
    ensures DerivedFrom(t, t, [], d, now)
  {
  }

  /** Once the rows have left a window they do not come back to it. */
  lemma WindowIsNew(rows: seq<Base>, i: nat, ms: int)
    requires 0 < ms && StrictlySorted(rows) && 0 < i < |rows|
    requires !InWindow(rows[i - 1], rows[i].series, WindowOf(rows[i].open, ms), ms)
    ensures NoneInside(rows[..i], rows[i].series, WindowOf(rows[i].open, ms), ms)
  {
    forall r | r in rows[..i]
      ensures !InWindow(r, rows[i].series, WindowOf(rows[i].open, ms), ms)
    {
      var m :| 0 <= m < i && rows[..i][m] == r;
      WindowUnbroken(rows, m, i, ms);
    }
  }

  // -- groups of sorted rows ---------------------------------------------

  lemma {:induction false} GroupSorted(rows: seq<Base>, series: nat, w: int, ms: int)
    requires 0 < ms && StrictlySorted(rows)
    ensures var g := Group(rows, series, w, ms);
            && StrictlySorted(g)
            && forall r :: r in g <==> r in rows && InWindow(r, series, w, ms)
  {
    if rows != [] {
      var front, last := rows[..|rows| - 1], rows[|rows| - 1];
      GroupSorted(front, series, w, ms);
      assert rows == front + [last];
      var g := Group(front, series, w, ms);
      forall i | 0 <= i < |g|
        ensures Before(g[i], last)
      {
        assert g[i] in g && g[i] in front;
        var m :| 0 <= m < |front| && front[m] == g[i];
        assert Before(rows[m], rows[|rows| - 1]);
      }
    }
  }

  /** The rows' positions in a window, in base bars from its start. */
  function Slot(r: Base, w: int, base: int): int
    requires 0 < base
  {
    (r.open - w) / base
  }

  ghost predicate OnGrid(rows: seq<Base>, base: int)
    requires 0 < base
  {
    forall r :: r in rows ==> r.open % base == 0
  }

  lemma SlotsInWindow(r: Base, series: nat, w: int, base: int, k: nat)
    requires 0 < base && 0 < k && w % base == 0 && r.open % base == 0 && InWindow(r, series, w, k * base)
    ensures r.open == w + Slot(r, w, base) * base && 0 <= Slot(r, w, base) < k
  {
    var off := r.open - w;
    assert off == r.open % (k * base);
    assert r.open == (r.open / base) * base && w == (w / base) * base;
    assert off == (r.open / base - w / base) * base;
    DivUnique(off, base, r.open / base - w / base);
    DivBelow(off, base, k);
    DivAtLeast(off, base, 0);
  }

  lemma {:induction false} SlotsRise(g: seq<Base>, series: nat, w: int, base: int, k: nat, i: nat)
    requires 0 < base && 0 < k && w % base == 0 && OnGrid(g, base) && StrictlySorted(g) && i < |g|
    requires forall r :: r in g ==> InWindow(r, series, w, k * base)
    ensures i <= Slot(g[i], w, base) < k
    ensures |g| <= k && Slot(g[i], w, base) + (|g| - 1 - i) < k
    decreases |g| - i
  {
    SlotsInWindow(g[i], series, w, base, k);
    if i + 1 < |g| {
      SlotsRise(g, series, w, base, k, i + 1);
      SlotsInWindow(g[i + 1], series, w, base, k);
      assert Before(g[i], g[i + 1]);
      SlotStep(Slot(g[i], w, base), Slot(g[i + 1], w, base), base);
    }
    SlotAtLeast(g, series, w, base, k, i);
  }

  lemma SlotStep(p: int, q: int, base: int)
    requires 0 < base && p * base < q * base
    ensures p < q
  {
    if q <= p {
      MulMono(q, p, base);
    }
  }

  lemma {:induction false} SlotAtLeast(g: seq<Base>, series: nat, w: int, base: int, k: nat, i: nat)
    requires 0 < base && 0 < k && w % base == 0 && OnGrid(g, base) && StrictlySorted(g) && i < |g|
    requires forall r :: r in g ==> InWindow(r, series, w, k * base)
    ensures i <= Slot(g[i], w, base)
  {
    SlotsInWindow(g[i], series, w, base, k);
    if i > 0 {
      SlotAtLeast(g, series, w, base, k, i - 1);
      SlotsInWindow(g[i - 1], series, w, base, k);
      assert Before(g[i - 1], g[i]);
      SlotStep(Slot(g[i - 1], w, base), Slot(g[i], w, base), base);
    }
  }

  /** On grid-aligned rows, counting `k` rows in a window is having every one of its base bars. */
  lemma CompleteMeansEveryBar(rows: seq<Base>, series: nat, w: int, base: int, k: nat)
    requires 0 < base && 0 < k && StrictlySorted(rows) && OnGrid(rows, base) && w % (k * base) == 0
    ensures 0 < k * base
    ensures |Group(rows, series, w, k * base)| == k <==>
              forall m :: 0 <= m < k ==> HasBar(rows, series, w + m * base)
  {
    MulMono(1, k, base);
    GridOfWindow(w, base, k);
    var g := Group(rows, series, w, k * base);
    GroupSorted(rows, series, w, k * base);
    if |g| == k {
      forall m | 0 <= m < k
        ensures HasBar(rows, series, w + m * base)
      {
        SlotsRise(g, series, w, base, k, m);
        SlotsInWindow(g[m], series, w, base, k);
        assert g[m] in g;
      }
    }
    if forall m :: 0 <= m < k ==> HasBar(rows, series, w + m * base) {
      EveryBarFills(g, rows, series, w, base, k, k);
      if g != [] {
        SlotsRise(g, series, w, base, k, 0);
      }
    }
  }

  ghost predicate HasBar(rows: seq<Base>, series: nat, open: int) {
    exists r :: r in rows && r.series == series && r.open == open
  }

  lemma GridOfWindow(w: int, base: int, k: nat)
    requires 0 < base && 0 < k && 0 < k * base && w % (k * base) == 0
    ensures w % base == 0
  {
    var q := w / (k * base);
    assert w == q * (k * base) == (q * k) * base;
    DivUnique(w, base, q * k);
  }

  lemma BarInWindow(r: Base, series: nat, w: int, base: int, k: nat, m: int)
    requires 0 < base && 0 < k * base && w % (k * base) == 0 && 0 <= m < k
    requires r.series == series && r.open == w + m * base
    ensures InWindow(r, series, w, k * base)
  {
    MulMono(m + 1, k, base);
    MulMono(0, m, base);
    var q := w / (k * base);
    assert w == q * (k * base);
    DivUnique(r.open, k * base, q);
  }

  lemma {:induction false} EveryBarFills(g: seq<Base>, rows: seq<Base>, series: nat, w: int, base: int, k: nat, m: nat)
    requires 0 < base && 0 < k && 0 < k * base && w % base == 0 && w % (k * base) == 0 && m <= k
    requires StrictlySorted(g) && OnGrid(rows, base)
    requires forall r :: r in g <==> r in rows && InWindow(r, series, w, k * base)
    requires forall j :: 0 <= j < k ==> HasBar(rows, series, w + j * base)
    ensures m <= |g|
    ensures m > 0 ==> exists i :: m - 1 <= i < |g| && Slot(g[i], w, base) == m - 1
  {
    if m > 0 {
      EveryBarFills(g, rows, series, w, base, k, m - 1);
      assert HasBar(rows, series, w + (m - 1) * base);
      var r :| r in rows && r.series == series && r.open == w + (m - 1) * base;
      BarInWindow(r, series, w, base, k, m - 1);
      var i :| 0 <= i < |g| && g[i] == r;
      DivUnique(r.open - w, base, m - 1);
      if m > 1 {
        var p :| m - 2 <= p < |g| && Slot(g[p], w, base) == m - 2;
        SlotsInWindow(g[p], series, w, base, k);
        SlotOrder(g, p, i, w, base);
      }
    }
  }

  lemma SlotOrder(g: seq<Base>, p: nat, i: nat, w: int, base: int)
    requires 0 < base && StrictlySorted(g) && p < |g| && i < |g| && g[p].series == g[i].series
    requires Slot(g[p], w, base) < Slot(g[i], w, base)
    ensures p < i
  {
    if i < p {
      assert Before(g[i], g[p]);
      DivMono(g[i].open - w, g[p].open - w, base);
    }
  }

  // -- the query's answer is unique --------------------------------------

  lemma {:induction false} SortedUnique(a: seq<Base>, b: seq<Base>)
    requires StrictlySorted(a) && StrictlySorted(b) && forall r :: r in a <==> r in b
    ensures a == b
    decreases |a|
  {
    assert a != [] ==> a[0] in a;
    assert b != [] ==> b[0] in b;
    if a != [] {
      LastIsGreatest(a, b);
      var x, y := a[..|a| - 1], b[..|b| - 1];
      forall r
        ensures r in x <==> r in y
      {
        FrontMembers(a, r);
        FrontMembers(b, r);
      }
      SortedUnique(x, y);
    }
  }

  lemma LastIsGreatest(a: seq<Base>, b: seq<Base>)
    requires a != [] && b != [] && StrictlySorted(a) && StrictlySorted(b) && forall r :: r in a <==> r in b
    ensures a[|a| - 1] == b[|b| - 1]
  {
    assert a[|a| - 1] in a && b[|b| - 1] in b;
    var i :| 0 <= i < |b| && b[i] == a[|a| - 1];
    var j :| 0 <= j < |a| && a[j] == b[|b| - 1];
    LastOrBefore(b, i);
    LastOrBefore(a, j);
  }

  lemma LastOrBefore(a: seq<Base>, i: nat)
    requires StrictlySorted(a) && i < |a|
    ensures a[i] == a[|a| - 1] || Before(a[i], a[|a| - 1])
  {
  }

  lemma FrontMembers(a: seq<Base>, r: Base)
    requires a != [] && StrictlySorted(a)
    ensures r in a[..|a| - 1] <==> r in a && r != a[|a| - 1]
  {
    assert a == a[..|a| - 1] + [a[|a| - 1]];
    if r in a[..|a| - 1] {
      var i :| 0 <= i < |a| - 1 && a[i] == r;
      assert Before(a[i], a[|a| - 1]);
    }
  }

  lemma AnswersUnique(t: Tables, tf: Tf, floor: Option<int>, a: seq<Base>, b: seq<Base>)
    requires Answers(t, tf, floor, a) && Answers(t, tf, floor, b)
    ensures a == b
  {
    AnswersInclude(t, tf, floor, a, b);
    AnswersInclude(t, tf, floor, b, a);
    SortedUnique(a, b);
  }

  lemma AnswersInclude(t: Tables, tf: Tf, floor: Option<int>, a: seq<Base>, b: seq<Base>)
    requires Answers(t, tf, floor, a) && Answers(t, tf, floor, b)
    ensures forall r :: r in a ==> r in b
  {
    forall r | r in a
      ensures r in b
    {
      var k := Key(r.series, tf, r.open);
      assert IsBaseKey(t, tf, floor, k);
      assert Base(k.series, k.open, t.rows[k].bar) == r;
    }
  }

  // -- selecting the base rows -------------------------------------------

  predicate BaseLe(x: Base, y: Base) { x.series < y.series || (x.series == y.series && x.open <= y.open) }

  lemma {:induction false} InsertStrict(x: Base, s: seq<Base>)
    requires StrictlySorted(s) && forall r :: r in s ==> r.series != x.series || r.open != x.open
    ensures StrictlySorted(Insert(BaseLe, x, s))
    ensures forall r :: r in Insert(BaseLe, x, s) <==> r == x || r in s
  {
    if s != [] && !BaseLe(x, s[0]) {
      InsertStrict(x, s[1..]);
      assert s == [s[0]] + s[1..];
      var rest := Insert(BaseLe, x, s[1..]);
      forall j | 0 <= j < |rest|
        ensures Before(s[0], rest[j])
      {
        assert rest[j] in rest;
      }
    }
  }

  /** The query: base rows that are fetched or captured, from the floor on, in table order. */
  method SelectBase(t: Tables, tf: Tf, floor: Option<int>) returns (rows: seq<Base>)
    ensures Answers(t, tf, floor, rows)
  {
    var todo := set k | k in t.rows && k.tf == tf && t.rows[k].source != DerivedBar
                        && (floor.Some? ==> floor.value <= k.open);
    rows := [];
    while todo != {}
      invariant StrictlySorted(rows)
      invariant forall k :: k in todo ==> IsBaseKey(t, tf, floor, k)
      invariant forall r :: r in rows ==> Key(r.series, tf, r.open) !in todo
                                          && IsBaseKey(t, tf, floor, Key(r.series, tf, r.open))
                                          && t.rows[Key(r.series, tf, r.open)].bar == r.bar
      invariant forall k :: IsBaseKey(t, tf, floor, k) ==> k in todo || Base(k.series, k.open, t.rows[k].bar) in rows
      decreases |todo|
    {
      var k :| k in todo;
      var x := Base(k.series, k.open, t.rows[k].bar);
      InsertStrict(x, rows);
      rows := Insert(BaseLe, x, rows);
      todo := todo - {k};
    }
  }

  // -- idempotence and the bound -----------------------------------------

  lemma SameLookups(t: Tables, u: Tables)
    requires t.conflicts == u.conflicts && forall k :: Lookup(t, k) == Lookup(u, k)
    ensures t == u
  {
    forall k
      ensures k in t.rows <==> k in u.rows
      ensures k in t.rows ==> t.rows[k] == u.rows[k]
    {
      assert Lookup(t, k) == Lookup(u, k);
    }
    assert t.rows == u.rows;
  }

  /** A second pass over the same rows at the same time changes nothing, fetch times included. */
  lemma DeriveIdempotent(t: Tables, u: Tables, v: Tables, rows: seq<Base>, d: Spec, now: int)
    requires DerivedFrom(t, u, rows, d, now) && DerivedFrom(u, v, rows, d, now)
    ensures v == u
  {
    assert Opened(Seal);
    forall k
      ensures Lookup(v, k) == Lookup(u, k)
    {
      assert Lookup(u, k) == Expected(t, rows, d, now, k);
      assert Lookup(v, k) == Expected(u, rows, d, now, k);
    }
    SameLookups(v, u);
  }

  function Floor(since: int, ms: int): int
    requires 0 < ms
  {
    (since / ms) * ms
  }

  function Kept(rows: seq<Base>, floor: int): seq<Base> {
    if rows == [] then []
    else
      var last := rows[|rows| - 1];
      Kept(rows[..|rows| - 1], floor) + (if floor <= last.open then [last] else [])
  }

  lemma {:induction false} KeptSorted(rows: seq<Base>, floor: int)
    requires StrictlySorted(rows)
    ensures StrictlySorted(Kept(rows, floor)) && forall r :: r in Kept(rows, floor) <==> r in rows && floor <= r.open
  {
    if rows != [] {
      var front, last := rows[..|rows| - 1], rows[|rows| - 1];
      KeptSorted(front, floor);
      assert rows == front + [last];
      var k := Kept(front, floor);
      forall i | 0 <= i < |k|
        ensures Before(k[i], last)
      {
        assert k[i] in k && k[i] in front;
        var m :| 0 <= m < |front| && front[m] == k[i];
        assert Before(rows[m], rows[|rows| - 1]);
      }
    }
  }

  lemma AlignedFloor(since: int, ms: int, open: int)
    requires 0 < ms
    ensures Floor(since, ms) <= open <==> Floor(since, ms) <= WindowOf(open, ms)
  {
    var f := Floor(since, ms);
    DivUnique(f, ms, since / ms);
    assert WindowOf(f, ms) == f;
    if f <= open {
      WindowMonotone(f, open, ms);
    }
  }

  lemma {:induction false} GroupOfKept(rows: seq<Base>, since: int, series: nat, w: int, ms: int)
    requires 0 < ms
    ensures Group(Kept(rows, Floor(since, ms)), series, w, ms)
         == if Floor(since, ms) <= w then Group(rows, series, w, ms) else []
  {
    if rows != [] {
      var front, last := rows[..|rows| - 1], rows[|rows| - 1];
      var f := Floor(since, ms);
      GroupOfKept(front, since, series, w, ms);
      AlignedFloor(since, ms, last.open);
      if f <= last.open {
        GroupAppend(Kept(front, f), [last], series, w, ms);
        assert [last][..0] == [];
        assert Group([last], series, w, ms) == if InWindow(last, series, w, ms) then [last] else [];
      } else {
        assert Kept(rows, f) == Kept(front, f);
      }
    }
  }

  /** On one timeframe the bounded pass agrees with the unbounded one on every window from the aligned
      floor on, and leaves every earlier window alone: aligning the bound never half-reads a window. */
  lemma BoundedRowsAgree(t: Tables, u: Tables, v: Tables, all: seq<Base>, recent: seq<Base>,
                          d: Spec, now: int, since: int)
    requires Answers(t, d.base, None, all) && Answers(t, d.base, Some(Floor(since, TfMs(d.out))), recent)
    requires DerivedFrom(t, u, all, d, now) && DerivedFrom(t, v, recent, d, now)
    ensures forall k: Key :: Lookup(v, k) ==
              if k.tf == d.out && Floor(since, TfMs(d.out)) <= k.open then Lookup(u, k) else Lookup(t, k)
  {
    assert Opened(Seal);
    var ms := TfMs(d.out);
    var f := Floor(since, ms);
    KeptAnswers(t, d.base, all, f);
    AnswersUnique(t, d.base, Some(f), recent, Kept(all, f));
    forall k: Key
      ensures Lookup(v, k) == if k.tf == d.out && f <= k.open then Lookup(u, k) else Lookup(t, k)
    {
      assert Lookup(v, k) == Expected(t, recent, d, now, k);
      assert Lookup(u, k) == Expected(t, all, d, now, k);
      GroupOfKept(all, since, k.series, k.open, ms);
    }
  }

  lemma KeptAnswers(t: Tables, tf: Tf, all: seq<Base>, f: int)
    requires Answers(t, tf, None, all)
    ensures Answers(t, tf, Some(f), Kept(all, f))
  {
    KeptSorted(all, f);
    forall k | IsBaseKey(t, tf, Some(f), k)
      ensures Base(k.series, k.open, t.rows[k].bar) in Kept(all, f)
    {
      assert IsBaseKey(t, tf, None, k);
    }
  }

  // -- the whole pass ----------------------------------------------------

  function FloorOf(d: Spec, since: Option<int>): Option<int> {
    if since.None? then None else Some(Floor(since.value, TfMs(d.out)))
  }

  /** The whole pass in one step: every output key holds its window's aggregate of the base rows as
      they were, and every other key is as it was. */
  ghost predicate PassOf(t: Tables, u: Tables, now: int, since: Option<int>) {
    && u.conflicts == t.conflicts
    && (forall k: Key :: !IsOutput(k.tf) ==> Lookup(u, k) == Lookup(t, k))
    && forall i :: 0 <= i < |SPECS| ==> OutputOf(t, u, SPECS[i], now, since)
  }

  ghost predicate OutputOf(t: Tables, u: Tables, d: Spec, now: int, since: Option<int>) {
    exists rows :: Answers(t, d.base, FloorOf(d, since), rows) && OutputFrom(t, u, d, now, rows)
  }

  /** Every key of the output timeframe holds what the rows say. */
  ghost predicate OutputFrom(t: Tables, u: Tables, d: Spec, now: int, rows: seq<Base>) {
    forall k: Key :: k.tf == d.out ==> Lookup(u, k) == Expected(t, rows, d, now, k)
  }

  /** Only output rows change, so the answers to later queries do not. */
  lemma AnswersStable(t: Tables, u: Tables, d: Spec, floor: Option<int>, rows: seq<Base>)
    requires Lawful(d) && Answers(u, d.base, floor, rows)
    requires forall k: Key :: !IsOutput(k.tf) ==> Lookup(u, k) == Lookup(t, k)
    ensures Answers(t, d.base, floor, rows)
  {
    forall k: Key | k.tf == d.base
      ensures IsBaseKey(u, d.base, floor, k) <==> IsBaseKey(t, d.base, floor, k)
      ensures IsBaseKey(u, d.base, floor, k) ==> u.rows[k] == t.rows[k]
    {
      assert Lookup(u, k) == Lookup(t, k);
    }
  }

  method DerivePass(store: Store, now: int, since: Option<int>)
    modifies store
    ensures PassOf(old(store.tables), store.tables, now, since)
  {
    SpecsLawful();
    ghost var t0 := store.tables;
    for i := 0 to |SPECS|
      invariant store.tables.conflicts == t0.conflicts
      invariant forall k: Key :: !IsOutput(k.tf) ==> Lookup(store.tables, k) == Lookup(t0, k)
      invariant forall k: Key, j ::
                  i <= j < |SPECS| && k.tf == SPECS[j].out ==> Lookup(store.tables, k) == Lookup(t0, k)
      invariant forall j :: 0 <= j < i ==> OutputOf(t0, store.tables, SPECS[j], now, since)
    {
      var d := SPECS[i];
      var rows := SelectBase(store.tables, d.base, FloorOf(d, since));
      ghost var u := store.tables;
      AnswersStable(t0, u, d, FloorOf(d, since), rows);
      DeriveRows(store, rows, d, now);
      SpecStep(t0, u, store.tables, rows, i, now, since);
    }
  }

  lemma SpecStep(t: Tables, u: Tables, v: Tables, rows: seq<Base>, i: nat, now: int, since: Option<int>)
    requires i < |SPECS| && DerivedFrom(u, v, rows, SPECS[i], now)
    requires Answers(t, SPECS[i].base, FloorOf(SPECS[i], since), rows)
    requires forall k: Key, j :: i <= j < |SPECS| && k.tf == SPECS[j].out ==> Lookup(u, k) == Lookup(t, k)
    requires forall j :: 0 <= j < i ==> OutputOf(t, u, SPECS[j], now, since)
    ensures v.conflicts == u.conflicts
    ensures forall k: Key :: k.tf != SPECS[i].out ==> Lookup(v, k) == Lookup(u, k)
    ensures forall j :: 0 <= j < i + 1 ==> OutputOf(t, v, SPECS[j], now, since)
  {
    assert Opened(Seal);
    SpecsLawful();
    forall k: Key
      ensures Lookup(v, k) == Expected(u, rows, SPECS[i], now, k)
    {
    }
    forall j | 0 <= j < i + 1
      ensures OutputOf(t, v, SPECS[j], now, since)
    {
      if j < i {
        var found :| Answers(t, SPECS[j].base, FloorOf(SPECS[j], since), found)
                     && OutputFrom(t, u, SPECS[j], now, found);
        assert OutputFrom(t, v, SPECS[j], now, found);
      } else {
        assert OutputFrom(t, v, SPECS[i], now, rows);
      }
    }
  }

  lemma OutputIdempotent(t: Tables, u: Tables, v: Tables, d: Spec, now: int, since: Option<int>, k: Key)
    requires Lawful(d) && k.tf == d.out
    requires forall q: Key :: !IsOutput(q.tf) ==> Lookup(u, q) == Lookup(t, q)
    requires OutputOf(t, u, d, now, since) && OutputOf(u, v, d, now, since)
    ensures Lookup(v, k) == Lookup(u, k)
  {
    var floor := FloorOf(d, since);
    var a :| Answers(t, d.base, floor, a) && OutputFrom(t, u, d, now, a);
    var b :| Answers(u, d.base, floor, b) && OutputFrom(u, v, d, now, b);
    AnswersStable(t, u, d, floor, b);
    AnswersUnique(t, d.base, floor, a, b);
    assert Lookup(u, k) == Expected(t, a, d, now, k);
    assert Lookup(v, k) == Expected(u, a, d, now, k);
  }

  /** Running the whole pass again changes nothing. */
  lemma PassIdempotent(t: Tables, u: Tables, v: Tables, now: int, since: Option<int>)
    requires PassOf(t, u, now, since) && PassOf(u, v, now, since)
    ensures v == u
  {
    SpecsLawful();
    forall k: Key
      ensures Lookup(v, k) == Lookup(u, k)
    {
      if IsOutput(k.tf) {
        var i := if k.tf == M5 then 0 else if k.tf == M15 then 1 else 2;
        assert OutputOf(t, u, SPECS[i], now, since) && OutputOf(u, v, SPECS[i], now, since);
        OutputIdempotent(t, u, v, SPECS[i], now, since, k);
      }
    }
    SameLookups(v, u);
  }

  lemma BoundedOutputAgrees(t: Tables, u: Tables, v: Tables, d: Spec, now: int, since: int, k: Key)
    requires Lawful(d) && k.tf == d.out
    requires OutputOf(t, u, d, now, None) && OutputOf(t, v, d, now, Some(since))
    ensures Lookup(v, k) == if Floor(since, TfMs(d.out)) <= k.open then Lookup(u, k) else Lookup(t, k)
  {
    var f := Floor(since, TfMs(d.out));
    var all :| Answers(t, d.base, FloorOf(d, None), all) && OutputFrom(t, u, d, now, all);
    var recent :| Answers(t, d.base, FloorOf(d, Some(since)), recent) && OutputFrom(t, v, d, now, recent);
    KeptAnswers(t, d.base, all, f);
    AnswersUnique(t, d.base, Some(f), recent, Kept(all, f));
    assert Lookup(u, k) == Expected(t, all, d, now, k);
    assert Lookup(v, k) == Expected(t, recent, d, now, k);
    GroupOfKept(all, since, k.series, k.open, TfMs(d.out));
  }

  /** The whole bounded pass agrees with the whole unbounded one on every window of every timeframe from
      that timeframe's aligned floor on, and leaves everything else alone. */
  lemma BoundedPassAgrees(t: Tables, u: Tables, v: Tables, now: int, since: int)
    requires PassOf(t, u, now, None) && PassOf(t, v, now, Some(since))
    ensures v.conflicts == u.conflicts
    ensures forall k: Key :: Lookup(v, k) ==
              if IsOutput(k.tf) && Floor(since, TfMs(k.tf)) <= k.open then Lookup(u, k) else Lookup(t, k)
  {
    SpecsLawful();
    forall k: Key
      ensures Lookup(v, k) ==
                if IsOutput(k.tf) && Floor(since, TfMs(k.tf)) <= k.open then Lookup(u, k) else Lookup(t, k)
    {
      if IsOutput(k.tf) {
        var i := if k.tf == M5 then 0 else if k.tf == M15 then 1 else 2;
        assert OutputOf(t, u, SPECS[i], now, None) && OutputOf(t, v, SPECS[i], now, Some(since));
        BoundedOutputAgrees(t, u, v, SPECS[i], now, since, k);
      }
    }
  }

  /** The pass touches only free and derived keys: nothing fetched or captured is lost or changed,
      under any clock; soundness asks for one that has not gone back. */
  lemma PassKeeps(t: Tables, u: Tables, now: int, since: Option<int>, clock: int)
    requires PassOf(t, u, now, since)
    ensures Extends(t, u)
    ensures Sound(t, clock) && clock <= now ==> Sound(u, now)
  {
    forall k: Key
      ensures Lookup(t, k).Some? && Lookup(t, k).value.source != DerivedBar ==> Lookup(u, k) == Lookup(t, k)
      ensures Lookup(t, k).Some? ==> Lookup(u, k).Some?
      ensures Lookup(u, k) == Lookup(t, k) || (Lookup(u, k).Some? && Lookup(u, k).value.fetched == now)
    {
      if IsOutput(k.tf) {
        var i := if k.tf == M5 then 0 else if k.tf == M15 then 1 else 2;
        assert OutputOf(t, u, SPECS[i], now, since);
        OutputWrites(t, u, SPECS[i], now, since, k);
      } else {
        assert Lookup(u, k) == Lookup(t, k);
      }
    }
    LookupsExtend(t, u, now, clock);
  }

  lemma OutputWrites(t: Tables, u: Tables, d: Spec, now: int, since: Option<int>, k: Key)
    requires OutputOf(t, u, d, now, since) && k.tf == d.out
    ensures exists g :: Lookup(u, k) == Written(t, d, now, k, g)
  {
    var rows :| Answers(t, d.base, FloorOf(d, since), rows) && OutputFrom(t, u, d, now, rows);
    assert Lookup(u, k) == Expected(t, rows, d, now, k);
  }

  // -- what a window ends with -------------------------------------------

  function SlotKey(d: Spec, series: nat, w: int, m: int): Key { Key(series, d.base, w + m * TfMs(d.base)) }

  /** Every base bar of the window is in the table, fetched or captured, from the floor on. */
  ghost predicate SlotsFilled(t: Tables, d: Spec, floor: Option<int>, series: nat, w: int) {
    forall m :: 0 <= m < d.k ==> IsBaseKey(t, d.base, floor, SlotKey(d, series, w, m))
  }

  ghost predicate BaseOnGrid(t: Tables, tf: Tf) {
    forall k :: k in t.rows && k.tf == tf ==> k.open % TfMs(tf) == 0
  }

  /** The known volumes of the first `n` base bars, added up. */
  ghost function SlotVolume(t: Tables, d: Spec, series: nat, w: int, n: nat): int
    requires forall m :: 0 <= m < n ==> SlotKey(d, series, w, m) in t.rows
  {
    if n == 0 then 0
    else
      var v := t.rows[SlotKey(d, series, w, n - 1)].bar.v;
      SlotVolume(t, d, series, w, n - 1) + if v.Some? then v.value else 0
  }

  /** The aggregate of the window's base bars, read off the table. */
  ghost predicate IsAggregate(t: Tables, d: Spec, series: nat, w: int, bar: Ohlcv)
    requires 0 < d.k && forall m :: 0 <= m < d.k ==> SlotKey(d, series, w, m) in t.rows
  {
    && bar.o == t.rows[SlotKey(d, series, w, 0)].bar.o && bar.c == t.rows[SlotKey(d, series, w, d.k - 1)].bar.c
    && (forall m :: 0 <= m < d.k ==>
          var b := t.rows[SlotKey(d, series, w, m)].bar; b.h <= bar.h && bar.l <= b.l)
    && (exists m :: 0 <= m < d.k && t.rows[SlotKey(d, series, w, m)].bar.h == bar.h)
    && (exists m :: 0 <= m < d.k && t.rows[SlotKey(d, series, w, m)].bar.l == bar.l)
    && (bar.v.Some? <==> forall m :: 0 <= m < d.k ==> t.rows[SlotKey(d, series, w, m)].bar.v.Some?)
    && (bar.v.Some? ==> bar.v.value == SlotVolume(t, d, series, w, d.k))
  }

  lemma HasBarIs(t: Tables, tf: Tf, floor: Option<int>, rows: seq<Base>, series: nat, open: int)
    requires Answers(t, tf, floor, rows)
    ensures HasBar(rows, series, open) <==> IsBaseKey(t, tf, floor, Key(series, tf, open))
  {
    if HasBar(rows, series, open) {
      var r :| r in rows && r.series == series && r.open == open;
    }
    if IsBaseKey(t, tf, floor, Key(series, tf, open)) {
      assert Base(series, open, t.rows[Key(series, tf, open)].bar) in rows;
    }
  }

  lemma AnswersOnGrid(t: Tables, tf: Tf, floor: Option<int>, rows: seq<Base>)
    requires Answers(t, tf, floor, rows) && BaseOnGrid(t, tf)
    ensures OnGrid(rows, TfMs(tf))
  {
    forall r | r in rows
      ensures r.open % TfMs(tf) == 0
    {
      assert IsBaseKey(t, tf, floor, Key(r.series, tf, r.open));
    }
  }

  /** The group is complete exactly when every slot is filled. */
  lemma CompleteIsFilled(t: Tables, d: Spec, floor: Option<int>, rows: seq<Base>, series: nat, w: int)
    requires Lawful(d) && Answers(t, d.base, floor, rows) && BaseOnGrid(t, d.base) && w % TfMs(d.out) == 0
    ensures |Group(rows, series, w, TfMs(d.out))| == d.k <==> SlotsFilled(t, d, floor, series, w)
  {
    AnswersOnGrid(t, d.base, floor, rows);
    CompleteMeansEveryBar(rows, series, w, TfMs(d.base), d.k);
    if SlotsFilled(t, d, floor, series, w) {
      forall m | 0 <= m < d.k
        ensures HasBar(rows, series, w + m * TfMs(d.base))
      {
        assert IsBaseKey(t, d.base, floor, SlotKey(d, series, w, m));
        HasBarIs(t, d.base, floor, rows, series, w + m * TfMs(d.base));
      }
    }
    if forall m :: 0 <= m < d.k ==> HasBar(rows, series, w + m * TfMs(d.base)) {
      forall m | 0 <= m < d.k
        ensures IsBaseKey(t, d.base, floor, SlotKey(d, series, w, m))
      {
        assert HasBar(rows, series, w + m * TfMs(d.base));
        HasBarIs(t, d.base, floor, rows, series, w + m * TfMs(d.base));
      }
    }
  }

  /** Then its `m`-th row is the `m`-th slot's. */
  lemma GroupIsSlots(t: Tables, d: Spec, floor: Option<int>, rows: seq<Base>, series: nat, w: int, m: nat)
    requires Lawful(d) && Answers(t, d.base, floor, rows) && BaseOnGrid(t, d.base) && w % TfMs(d.out) == 0
    requires |Group(rows, series, w, TfMs(d.out))| == d.k && m < d.k
    ensures SlotKey(d, series, w, m) in t.rows
    ensures Group(rows, series, w, TfMs(d.out))[m].bar == t.rows[SlotKey(d, series, w, m)].bar
  {
    var g, base := Group(rows, series, w, TfMs(d.out)), TfMs(d.base);
    AnswersOnGrid(t, d.base, floor, rows);
    GroupSorted(rows, series, w, TfMs(d.out));
    GridOfWindow(w, base, d.k);
    assert g[m] in g;
    SlotsRise(g, series, w, base, d.k, m);
    SlotsInWindow(g[m], series, w, base, d.k);
    assert Slot(g[m], w, base) == m;
    assert g[m] in rows;
  }

  lemma {:induction false} VolumesAreSlots(t: Tables, d: Spec, series: nat, w: int, g: seq<Base>, n: nat)
    requires n <= |g|
    requires forall m :: 0 <= m < |g| ==>
                           SlotKey(d, series, w, m) in t.rows && g[m].bar == t.rows[SlotKey(d, series, w, m)].bar
    ensures TotalVolume(g[..n]) == SlotVolume(t, d, series, w, n)
  {
    if n > 0 {
      VolumesAreSlots(t, d, series, w, g, n - 1);
      assert g[..n] == g[..n - 1] + [g[n - 1]];
      TotalVolumeSnoc(g[..n - 1], g[n - 1]);
    }
  }

  lemma AggregateIsSlots(t: Tables, d: Spec, series: nat, w: int, g: seq<Base>)
    requires 0 < d.k == |g|
    requires forall m :: 0 <= m < |g| ==>
                           SlotKey(d, series, w, m) in t.rows && g[m].bar == t.rows[SlotKey(d, series, w, m)].bar
    ensures IsAggregate(t, d, series, w, Aggregate(g))
  {
    AggregateLaw(g);
    VolumesAreSlots(t, d, series, w, g, |g|);
    assert g[..|g|] == g;
    var a := Aggregate(g);
    forall m | 0 <= m < d.k
      ensures t.rows[SlotKey(d, series, w, m)].bar.h <= a.h && a.l <= t.rows[SlotKey(d, series, w, m)].bar.l
    {
      assert g[m] in g;
    }
    var x :| x in g && x.bar.h == a.h;
    var i :| 0 <= i < |g| && g[i] == x;
    var y :| y in g && y.bar.l == a.l;
    var j :| 0 <= j < |g| && g[j] == y;
    assert t.rows[SlotKey(d, series, w, i)].bar.h == a.h && t.rows[SlotKey(d, series, w, j)].bar.l == a.l;
    VolumeKnown(t, d, series, w, g);
  }

  lemma VolumeKnown(t: Tables, d: Spec, series: nat, w: int, g: seq<Base>)
    requires forall m :: 0 <= m < |g| ==>
                           SlotKey(d, series, w, m) in t.rows && g[m].bar == t.rows[SlotKey(d, series, w, m)].bar
    ensures (forall r :: r in g ==> r.bar.v.Some?)
            <==> forall m :: 0 <= m < |g| ==> t.rows[SlotKey(d, series, w, m)].bar.v.Some?
  {
    if forall r :: r in g ==> r.bar.v.Some? {
      forall m | 0 <= m < |g|
        ensures t.rows[SlotKey(d, series, w, m)].bar.v.Some?
      {
        assert g[m] in g;
      }
    }
  }

  ghost predicate FreeOrDerived(t: Tables, key: Key) { key in t.rows ==> t.rows[key].source == DerivedBar }

  lemma WrittenIs(t: Tables, u: Tables, d: Spec, now: int, key: Key, g: seq<Base>)
    requires 0 < d.k && Lookup(u, key) == Written(t, d, now, key, g)
    ensures if |g| == d.k && key.open + TfMs(d.out) <= now && FreeOrDerived(t, key)
            then && key in u.rows && u.rows[key].source == DerivedBar && u.rows[key].bar == Aggregate(g)
                 && (u.rows[key].fetched == now || (key in t.rows && u.rows[key] == t.rows[key]))
            else Lookup(u, key) == Lookup(t, key)
  {
  }

  /** What a pass leaves of a window. Closed, with every base bar there and its key free or derived, it ends
      with the aggregate of those bars, stale or not before; a row of an open or incomplete window, or of
      another kind, is as it was. */
  lemma WindowEnds(t: Tables, u: Tables, now: int, since: Option<int>, i: nat, key: Key)
    requires PassOf(t, u, now, since) && i < |SPECS| && key.tf == SPECS[i].out
    requires BaseOnGrid(t, SPECS[i].base) && key.open % TfMs(key.tf) == 0
    ensures var d := SPECS[i];
            var due := SlotsFilled(t, d, FloorOf(d, since), key.series, key.open) && key.open + TfMs(d.out) <= now;
            if due && FreeOrDerived(t, key)
            then && key in u.rows && u.rows[key].source == DerivedBar
                 && IsAggregate(t, d, key.series, key.open, u.rows[key].bar)
                 && (u.rows[key].fetched == now || (key in t.rows && u.rows[key] == t.rows[key]))
            else Lookup(u, key) == Lookup(t, key)
  {
    SpecsLawful();
    var d := SPECS[i];
    var floor := FloorOf(d, since);
    assert OutputOf(t, u, d, now, since);
    var rows :| Answers(t, d.base, floor, rows) && OutputFrom(t, u, d, now, rows);
    assert Lookup(u, key) == Expected(t, rows, d, now, key);
    var g := Group(rows, key.series, key.open, TfMs(d.out));
    WrittenIs(t, u, d, now, key, g);
    CompleteIsFilled(t, d, floor, rows, key.series, key.open);
    if |g| == d.k {
      GroupAggregates(t, d, floor, rows, key.series, key.open);
    }
  }

  lemma GroupAggregates(t: Tables, d: Spec, floor: Option<int>, rows: seq<Base>, series: nat, w: int)
    requires Lawful(d) && Answers(t, d.base, floor, rows) && BaseOnGrid(t, d.base) && w % TfMs(d.out) == 0
    requires |Group(rows, series, w, TfMs(d.out))| == d.k
    ensures forall m :: 0 <= m < d.k ==> SlotKey(d, series, w, m) in t.rows
    ensures IsAggregate(t, d, series, w, Aggregate(Group(rows, series, w, TfMs(d.out))))
  {
    var g := Group(rows, series, w, TfMs(d.out));
    forall m | 0 <= m < |g|
      ensures SlotKey(d, series, w, m) in t.rows
      ensures g[m].bar == t.rows[SlotKey(d, series, w, m)].bar
    {
      GroupIsSlots(t, d, floor, rows, series, w, m);
    }
    AggregateIsSlots(t, d, series, w, g);
  }

  lemma LookupsExtend(t: Tables, u: Tables, now: int, clock: int)
    requires u.conflicts == t.conflicts
    requires forall k: Key ::
               Lookup(t, k).Some? && Lookup(t, k).value.source != DerivedBar ==> Lookup(u, k) == Lookup(t, k)
    requires forall k: Key :: Lookup(t, k).Some? ==> Lookup(u, k).Some?
    requires forall k: Key ::
               Lookup(u, k) == Lookup(t, k) || (Lookup(u, k).Some? && Lookup(u, k).value.fetched == now)
    ensures Extends(t, u)
    ensures Sound(t, clock) && clock <= now ==> Sound(u, now)
  {
    forall k: Key
      ensures k in t.rows ==> k in u.rows
      ensures k in t.rows && t.rows[k].source != DerivedBar ==> u.rows[k] == t.rows[k]
      ensures k in u.rows ==> u.rows[k].fetched == now || (k in t.rows && u.rows[k] == t.rows[k])
    {
      assert Lookup(t, k).Some? <==> k in t.rows;
      assert Lookup(u, k).Some? <==> k in u.rows;
    }
  }
}
