/** The candle store: one table keyed by series, timeframe and open time, and the table of
    conflicts. A fetched bar that had closed when it was fetched is immutable. A series stands for
    one (venue, descriptor) pair, numbered in the table's order. */
module CandleStore {
  import opened Options
  import opened Sorting

  const MS_1M: int := 60_000
  const MS_1H: int := 3_600_000
  const MS_1D: int := 86_400_000
  const FUTURE_SKEW: int := MS_1M

  datatype Tf = M1 | H1 | D1 | M5 | M15 | H4

  function TfMs(tf: Tf): (ms: int)
    ensures 0 < ms
  {
    match tf
    case M1 => MS_1M
    case H1 => MS_1H
    case D1 => MS_1D
    case M5 => 5 * MS_1M
    case M15 => 15 * MS_1M
    case H4 => 4 * MS_1H
  }

  datatype Source = Rest | DerivedBar | Capture

  /** Prices and volume; a volume may be unknown. */
  datatype Ohlcv = Ohlcv(o: int, h: int, l: int, c: int, v: Option<int>)

  datatype Key = Key(series: nat, tf: Tf, open: int)

  datatype Row = Row(bar: Ohlcv, n: Option<int>, source: Source, fetched: int)

  datatype Conflict = Conflict(bar: Ohlcv, firstSeen: int)

  datatype Tables = Tables(rows: map<Key, Row>, conflicts: map<Key, Conflict>)

  function Lookup(t: Tables, k: Key): Option<Row> {
    if k in t.rows then Some(t.rows[k]) else None
  }

  /** A fetched bar that had closed by the time it was fetched. */
  predicate Frozen(t: Tables, k: Key) {
    k in t.rows && t.rows[k].source == Rest && k.open + TfMs(k.tf) <= t.rows[k].fetched
  }

  // -- the REST upsert ---------------------------------------------------

  datatype Bar = Bar(ts: int, bar: Ohlcv)

  datatype Stats = Stats(inserted: nat, updatedOpen: nat, conflicts: nat, same: nat, superseded: nat, refused: nat)

  function Counted(s: Stats): nat {
    s.inserted + s.updatedOpen + s.conflicts + s.same + s.superseded + s.refused
  }

  /** One more in the column of what the bar met. */
  function Bumped(s: Stats, m: Met): Stats {
    match m
    case TooNew => s.(refused := s.refused + 1)
    case Free => s.(inserted := s.inserted + 1)
    case SameBar => s.(same := s.same + 1)
    case Closed => s.(conflicts := s.conflicts + 1)
    case OfCapture => s.(superseded := s.superseded + 1)
    case StillOpen => s.(updatedOpen := s.updatedOpen + 1)
  }

  /** Every column counts the bars that met its case. */
  ghost predicate Tallies(s: Stats, t: Tables, series: nat, tf: Tf, bars: seq<Bar>, now: int, latestOpen: int, n: nat)
    requires n <= |bars|
  {
    && s.refused == CountMet(t, series, tf, bars, now, latestOpen, n, TooNew)
    && s.inserted == CountMet(t, series, tf, bars, now, latestOpen, n, Free)
    && s.same == CountMet(t, series, tf, bars, now, latestOpen, n, SameBar)
    && s.conflicts == CountMet(t, series, tf, bars, now, latestOpen, n, Closed)
    && s.superseded == CountMet(t, series, tf, bars, now, latestOpen, n, OfCapture)
    && s.updatedOpen == CountMet(t, series, tf, bars, now, latestOpen, n, StillOpen)
  }

  lemma TalliesStep(s: Stats, t: Tables, series: nat, tf: Tf, bars: seq<Bar>, now: int, latestOpen: int, n: nat)
    requires n < |bars| && Tallies(s, t, series, tf, bars, now, latestOpen, n)
    ensures var u := RestUpTo(t, series, tf, bars, now, latestOpen, n);
            Tallies(Bumped(s, MeetsOne(u, Key(series, tf, bars[n].ts), bars[n].bar, latestOpen)),
                    t, series, tf, bars, now, latestOpen, n + 1)
  {
  }

  function FirstSeen(t: Tables, k: Key, now: int): int {
    if k in t.conflicts then t.conflicts[k].firstSeen else now
  }

  /** The latest open a page may carry: a minute past its fetch. */
  function LatestOpen(now: int, fetched: Option<int>): int {
    (if fetched.Some? then fetched.value else now) + FUTURE_SKEW
  }

  /** One fetched bar against the table. */
  function RestOne(t: Tables, k: Key, bar: Ohlcv, now: int, latestOpen: int): Tables {
    if k.open > latestOpen then t
    else if k !in t.rows then t.(rows := t.rows[k := Row(bar, None, Rest, now)])
    else
      var row := t.rows[k];
      if row.source == Rest && row.bar == bar then t
      else if Frozen(t, k) then t.(conflicts := t.conflicts[k := Conflict(bar, FirstSeen(t, k, now))])
      else t.(rows := t.rows[k := Row(bar, row.n, Rest, now)])
  }

  /** What a fetched bar meets. */
  datatype Met = TooNew | Free | SameBar | Closed | OfCapture | StillOpen

  function MeetsOne(t: Tables, k: Key, bar: Ohlcv, latestOpen: int): Met {
    if k.open > latestOpen then TooNew
    else if k !in t.rows then Free
    else if t.rows[k].source == Rest && t.rows[k].bar == bar then SameBar
    else if Frozen(t, k) then Closed
    else if t.rows[k].source == Capture then OfCapture
    else StillOpen
  }

  /** The first `i` bars of a page, one after the other. */
  function RestUpTo(t: Tables, series: nat, tf: Tf, bars: seq<Bar>, now: int, latestOpen: int, i: nat): Tables
    requires i <= |bars|
  {
    if i == 0 then t
    else
      var last := bars[i - 1];
      RestOne(RestUpTo(t, series, tf, bars, now, latestOpen, i - 1),
              Key(series, tf, last.ts), last.bar, now, latestOpen)
  }

  function RestAll(t: Tables, series: nat, tf: Tf, bars: seq<Bar>, now: int, latestOpen: int): Tables {
    RestUpTo(t, series, tf, bars, now, latestOpen, |bars|)
  }

  // -- the capture upsert ------------------------------------------------

  /** A minute folded from our own sockets; it has no volume. */
  datatype MinuteBar = MinuteBar(series: nat, minute: int, o: int, h: int, l: int, c: int, n: int)

  function CaptureOne(t: Tables, b: MinuteBar, now: int): Tables {
    var k := Key(b.series, M1, b.minute);
    if k !in t.rows then t.(rows := t.rows[k := Row(Ohlcv(b.o, b.h, b.l, b.c, None), Some(b.n), Capture, now)])
    else
      var row := t.rows[k];
      if row.source != Capture then t
      else if (row.bar.o, row.bar.h, row.bar.l, row.bar.c, row.n) == (b.o, b.h, b.l, b.c, Some(b.n)) then t
      else t.(rows := t.rows[k := Row(Ohlcv(b.o, b.h, b.l, b.c, row.bar.v), Some(b.n), Capture, now)])
  }

  datatype Captured = NewBar | KeptOut | Unchanged | Refreshed

  function KeyOf(b: MinuteBar): Key { Key(b.series, M1, b.minute) }

  predicate OtherHolds(t: Tables, k: Key) { k in t.rows && t.rows[k].source != Capture }

  /** How many of the first `n` bars find a row of another kind on their key. */
  function HeldByOthers(t: Tables, bars: seq<MinuteBar>, n: nat): nat
    requires n <= |bars|
  {
    if n == 0 then 0 else HeldByOthers(t, bars, n - 1) + if OtherHolds(t, KeyOf(bars[n - 1])) then 1 else 0
  }

  /** Bar `i` is the last of the first `n` on key `k`. */
  ghost predicate LastOn(bars: seq<MinuteBar>, n: nat, k: Key, i: int) {
    0 <= i < n <= |bars| && KeyOf(bars[i]) == k && forall j :: i < j < n ==> KeyOf(bars[j]) != k
  }

  /** The row shows the minute: its four prices and its count, from our own sockets. */
  ghost predicate Shows(row: Row, b: MinuteBar) {
    row.bar.o == b.o && row.bar.h == b.h && row.bar.l == b.l && row.bar.c == b.c && row.n == Some(b.n)
    && row.source == Capture
  }

  /** What a batch may leave on a key no other kind of row holds: no volume is made up, and a row that is
      not stamped now is as it was. */
  ghost predicate NoOtherChange(t: Tables, u: Tables, k: Key, now: int) {
    k in u.rows ==>
      && u.rows[k].bar.v == (if k in t.rows then t.rows[k].bar.v else None)
      && (u.rows[k].fetched == now || (k in t.rows && u.rows[k] == t.rows[k]))
  }

  lemma {:induction false} CaptureMakesUpNothing(t: Tables, bars: seq<MinuteBar>, now: int, n: nat, k: Key)
    requires n <= |bars| && !OtherHolds(t, k)
    ensures var u := CaptureUpTo(t, bars, now, n);
            !OtherHolds(u, k) && NoOtherChange(t, u, k, now) && (k in t.rows ==> k in u.rows)
  {
    if n > 0 {
      CaptureMakesUpNothing(t, bars, now, n - 1, k);
      CaptureLeavesOthers(t, bars, now, n, k);
      CapturedStep(t, bars, now, n, k);
      LookupTells(CaptureUpTo(t, bars, now, n), CaptureUpTo(t, bars, now, n - 1), k);
    }
  }

  lemma LookupTells(t: Tables, u: Tables, k: Key)
    ensures Lookup(u, k) == Lookup(t, k) <==> (k in u.rows <==> k in t.rows) && (k in t.rows ==> u.rows[k] == t.rows[k])
  {
  }

  /** After a batch a key no other kind of row holds shows its last minute, with no volume made up. */
  lemma {:induction false} CapturedValues(t: Tables, bars: seq<MinuteBar>, now: int, n: nat, k: Key, i: nat)
    requires LastOn(bars, n, k, i) && !OtherHolds(t, k)
    ensures var u := CaptureUpTo(t, bars, now, n);
            k in u.rows && Shows(u.rows[k], bars[i]) && NoOtherChange(t, u, k, now)
  {
    CaptureMakesUpNothing(t, bars, now, n, k);
    CaptureMakesUpNothing(t, bars, now, n - 1, k);
    CapturedStep(t, bars, now, n, k);
    if i < n - 1 {
      CapturedValues(t, bars, now, n - 1, k, i);
      LookupTells(CaptureUpTo(t, bars, now, n), CaptureUpTo(t, bars, now, n - 1), k);
    }
  }

  /** A batch has at most one minute per key, as the fold's table does. */
  ghost predicate OnePerKey(bars: seq<MinuteBar>) {
    forall i, j :: 0 <= i < j < |bars| ==> KeyOf(bars[i]) != KeyOf(bars[j])
  }

  /** The same batch again changes nothing, not even a fetch time. */
  lemma CaptureAgain(t: Tables, bars: seq<MinuteBar>, now: int, later: int)
    requires OnePerKey(bars)
    ensures CaptureAll(CaptureAll(t, bars, now), bars, later) == CaptureAll(t, bars, now)
  {
    var u := CaptureAll(t, bars, now);
    forall i | 0 <= i < |bars|
      ensures CaptureOne(u, bars[i], later) == u
    {
      var k := KeyOf(bars[i]);
      CaptureLeavesOthers(t, bars, now, |bars|, k);
      if !OtherHolds(t, k) {
        CapturedValues(t, bars, now, |bars|, k, i);
      }
    }
    AllUnchanged(u, bars, later, |bars|);
  }

  lemma {:induction false} AllUnchanged(u: Tables, bars: seq<MinuteBar>, now: int, n: nat)
    requires n <= |bars| && forall i :: 0 <= i < n ==> CaptureOne(u, bars[i], now) == u
    ensures CaptureUpTo(u, bars, now, n) == u
  {
    if n > 0 {
      AllUnchanged(u, bars, now, n - 1);
    }
  }

  /** A key of no minute, or of another kind of row, is as it was. */
  lemma {:induction false} CaptureLeavesRest(t: Tables, bars: seq<MinuteBar>, now: int, n: nat, k: Key)
    requires n <= |bars| && (OtherHolds(t, k) || forall j :: 0 <= j < n ==> KeyOf(bars[j]) != k)
    ensures Lookup(CaptureUpTo(t, bars, now, n), k) == Lookup(t, k)
  {
    if n > 0 {
      CaptureLeavesRest(t, bars, now, n - 1, k);
      CaptureLeavesOthers(t, bars, now, n - 1, k);
      CapturedStep(t, bars, now, n, k);
    }
  }

  lemma CapturedStep(t: Tables, bars: seq<MinuteBar>, now: int, n: nat, k: Key)
    requires 0 < n <= |bars|
    ensures var s, u := CaptureUpTo(t, bars, now, n - 1), CaptureUpTo(t, bars, now, n);
            && (KeyOf(bars[n - 1]) != k ==> Lookup(u, k) == Lookup(s, k))
            && (KeyOf(bars[n - 1]) == k && !OtherHolds(s, k) ==>
                  && k in u.rows && Shows(u.rows[k], bars[n - 1])
                  && u.rows[k].bar.v == (if k in s.rows then s.rows[k].bar.v else None)
                  && (u.rows[k].fetched == now || (k in s.rows && u.rows[k] == s.rows[k])))
            && (OtherHolds(s, k) ==> Lookup(u, k) == Lookup(s, k))
  {
  }

  lemma {:induction false} CaptureLeavesOthers(t: Tables, bars: seq<MinuteBar>, now: int, n: nat, k: Key)
    requires n <= |bars|
    ensures var u := CaptureUpTo(t, bars, now, n);
            && (OtherHolds(u, k) <==> OtherHolds(t, k)) && (OtherHolds(t, k) ==> u.rows[k] == t.rows[k])
  {
    if n > 0 {
      CaptureLeavesOthers(t, bars, now, n - 1, k);
    }
  }

  function CaptureUpTo(t: Tables, bars: seq<MinuteBar>, now: int, i: nat): Tables
    requires i <= |bars|
  {
    if i == 0 then t else CaptureOne(CaptureUpTo(t, bars, now, i - 1), bars[i - 1], now)
  }

  function CaptureAll(t: Tables, bars: seq<MinuteBar>, now: int): Tables {
    CaptureUpTo(t, bars, now, |bars|)
  }

  // -- the purge ---------------------------------------------------------

  function Purged(t: Tables, now: int): Tables {
    t.(rows := map k | k in t.rows && k.open <= now + FUTURE_SKEW :: t.rows[k])
  }

  datatype Purge = Purge(series: nat, tf: Tf, n: int)

  /** Every timeframe the store writes, in the order of their names. */
  const TFS: seq<Tf> := [M15, D1, H1, M1, H4, M5]

  function TfRank(tf: Tf): int {
    match tf
    case M15 => 0
    case D1 => 1
    case H1 => 2
    case M1 => 3
    case H4 => 4
    case M5 => 5
  }

  predicate PurgeLe(p: Purge, q: Purge) {
    || p.series < q.series
    || (p.series == q.series && (TfRank(p.tf) < TfRank(q.tf) || (p.tf == q.tf && p.n <= q.n)))
  }

  lemma PurgeOrder()
    ensures TotalPreorder(PurgeLe)
  {
    assert forall p: Purge, q: Purge :: TfRank(p.tf) == TfRank(q.tf) ==> p.tf == q.tf;
  }

  /** The keys of a series and timeframe that open too far ahead. */
  function Ahead(t: Tables, series: nat, tf: Tf, now: int): set<Key> {
    set k | k in t.rows && k.series == series && k.tf == tf && k.open > now + FUTURE_SKEW
  }

  /** They are exactly the ones the purge loses. */
  lemma AheadIsLost(t: Tables, now: int, k: Key)
    ensures k in Ahead(t, k.series, k.tf, now) <==> k in t.rows && k !in Purged(t, now).rows
    ensures k in Purged(t, now).rows ==> k.open <= now + 60_000 && Purged(t, now).rows[k] == t.rows[k]
    ensures k in Ahead(t, k.series, k.tf, now) ==> now + 60_000 < k.open
  {
  }

  /** The table after the first `n` timeframes are done. */
  ghost function PurgedUpTo(t: Tables, now: int, n: nat): Tables
    requires n <= |TFS|
  {
    t.(rows := map k | k in t.rows && !(k.tf in TFS[..n] && k.open > now + FUTURE_SKEW) :: t.rows[k])
  }

  lemma PurgeStep(t: Tables, now: int, n: nat)
    requires n < |TFS|
    ensures TFS[n] !in TFS[..n] && TFS[..n + 1] == TFS[..n] + [TFS[n]]
    ensures var u := PurgedUpTo(t, now, n);
            && (forall series :: Ahead(u, series, TFS[n], now) == Ahead(t, series, TFS[n], now))
            && PurgedUpTo(t, now, n + 1).rows
               == map k | k in u.rows && !(k.tf == TFS[n] && k.open > now + FUTURE_SKEW) :: u.rows[k]
  {
  }

  lemma AllTimeframes(t: Tables, now: int)
    ensures PurgedUpTo(t, now, |TFS|) == Purged(t, now)
    ensures forall tf :: tf in TFS[..|TFS|]
  {
    assert TFS[..|TFS|] == TFS;
    forall tf: Tf
      ensures tf in TFS
    {
      assert TFS[TfRank(tf)] == tf;
    }
  }

  /** The series that lose bars of one timeframe, with how many. */
  method CountAhead(t: Tables, tf: Tf, now: int) returns (out: seq<Purge>)
    ensures forall p :: p in out <==> p.tf == tf && p.n == |Ahead(t, p.series, tf, now)| > 0
  {
    out := [];
    var todo := set k | k in t.rows && k.tf == tf && k.open > now + FUTURE_SKEW :: k.series;
    ghost var all := todo;
    while todo != {}
      invariant todo <= all
      invariant forall p :: p in out <==>
                  p.series in all - todo && p.tf == tf && p.n == |Ahead(t, p.series, tf, now)| > 0
      decreases |todo|
    {
      var series :| series in todo;
      var gone := Ahead(t, series, tf, now);
      ghost var k :| k in t.rows && k.tf == tf && k.open > now + FUTURE_SKEW && k.series == series;
      assert k in gone;
      out := out + [Purge(series, tf, |gone|)];
      todo := todo - {series};
    }
    forall p: Purge | p.tf == tf && p.n == |Ahead(t, p.series, tf, now)| > 0
      ensures p.series in all
    {
      var k :| k in Ahead(t, p.series, tf, now);
    }
  }

  // -- what every operation keeps ----------------------------------------

  /** No row was fetched after `clock`, and only frozen rows have conflicts. */
  ghost predicate Sound(t: Tables, clock: int) {
    && (forall k :: k in t.rows ==> t.rows[k].fetched <= clock)
    && (forall k :: k in t.conflicts ==> Frozen(t, k))
  }

  /** What `u` may be after `t`: frozen rows are exactly as they were, conflicts keep their first
      sighting, and a fetched row is never replaced by a capture or derived one. */
  ghost predicate Keeps(t: Tables, u: Tables) {
    && (forall k :: Frozen(t, k) ==> k in u.rows && u.rows[k] == t.rows[k])
    && (forall k :: k in t.conflicts ==> k in u.conflicts && u.conflicts[k].firstSeen == t.conflicts[k].firstSeen)
    && (forall k :: k in t.rows && t.rows[k].source == Rest && k in u.rows ==> u.rows[k].source == Rest)
  }

  /** As Keeps, with no row lost: every operation but the purge. */
  ghost predicate Extends(t: Tables, u: Tables) {
    Keeps(t, u) && t.rows.Keys <= u.rows.Keys
  }

  lemma ExtendsTrans(t: Tables, u: Tables, v: Tables)
    requires Extends(t, u) && Extends(u, v)
    ensures Extends(t, v)
  {
    assert forall k :: Frozen(t, k) ==> Frozen(u, k);
  }

  /** One bar extends the table under any clock; soundness asks for one that has not gone back. */
  lemma RestOneKeeps(t: Tables, k: Key, bar: Ohlcv, now: int, latestOpen: int, clock: int)
    ensures Extends(t, RestOne(t, k, bar, now, latestOpen))
    ensures Sound(t, clock) && clock <= now ==> Sound(RestOne(t, k, bar, now, latestOpen), now)
  {
  }

  /** Bar `i` of a page disagrees with the frozen row it meets. */
  predicate Disagrees(t: Tables, series: nat, tf: Tf, bars: seq<Bar>, now: int, latestOpen: int, i: nat)
    requires i < |bars|
  {
    var u, k := RestUpTo(t, series, tf, bars, now, latestOpen, i), Key(series, tf, bars[i].ts);
    k.open <= latestOpen && Frozen(u, k) && u.rows[k].bar != bars[i].bar
  }

  lemma OneConflict(t: Tables, j: Key, bar: Ohlcv, now: int, latestOpen: int, k: Key)
    ensures var u := RestOne(t, j, bar, now, latestOpen);
            && (k in u.conflicts <==>
                  k in t.conflicts || (j == k && k.open <= latestOpen && Frozen(t, k) && t.rows[k].bar != bar))
            && (k in u.conflicts ==> u.conflicts[k].firstSeen == FirstSeen(t, k, now))
            && (Frozen(t, k) ==> Frozen(u, k) && u.rows[k] == t.rows[k])
  {
  }

  /** A key is in the conflicts after a page exactly when it was before or a bar of the page disagreed
      with its frozen row; its first sighting is the older one, and frozen rows are as they were. */
  lemma {:induction false} ConflictsAreDisagreements(t: Tables, series: nat, tf: Tf, bars: seq<Bar>, now: int,
                                                     latestOpen: int, n: nat, k: Key)
    requires n <= |bars|
    ensures var u := RestUpTo(t, series, tf, bars, now, latestOpen, n);
            && (k in u.conflicts <==>
                  || k in t.conflicts
                  || exists i :: 0 <= i < n && Key(series, tf, bars[i].ts) == k
                                 && Disagrees(t, series, tf, bars, now, latestOpen, i))
            && (k in u.conflicts ==> u.conflicts[k].firstSeen == FirstSeen(t, k, now))
            && (Frozen(t, k) ==> Frozen(u, k) && u.rows[k] == t.rows[k])
  {
    if n > 0 {
      ConflictsAreDisagreements(t, series, tf, bars, now, latestOpen, n - 1, k);
      var u := RestUpTo(t, series, tf, bars, now, latestOpen, n - 1);
      OneConflict(u, Key(series, tf, bars[n - 1].ts), bars[n - 1].bar, now, latestOpen, k);
    }
  }

  /** The logged bar is the last one of the page that disagreed. */
  lemma {:induction false} ConflictShows(t: Tables, series: nat, tf: Tf, bars: seq<Bar>, now: int, latestOpen: int,
                                         n: nat, k: Key, i: nat)
    requires LastDisagreeing(t, series, tf, bars, now, latestOpen, n, k, i)
    ensures var u := RestUpTo(t, series, tf, bars, now, latestOpen, n);
            k in u.conflicts && u.conflicts[k].bar == bars[i].bar
  {
    ConflictStep(t, series, tf, bars, now, latestOpen, n, k);
    if i < n - 1 {
      ConflictShows(t, series, tf, bars, now, latestOpen, n - 1, k, i);
    }
  }

  /** With none, the log is as it was. */
  lemma {:induction false} LogUnchanged(t: Tables, series: nat, tf: Tf, bars: seq<Bar>, now: int, latestOpen: int,
                                        n: nat, k: Key)
    requires n <= |bars|
    requires forall i :: 0 <= i < n && Key(series, tf, bars[i].ts) == k ==>
                           !Disagrees(t, series, tf, bars, now, latestOpen, i)
    ensures var u := RestUpTo(t, series, tf, bars, now, latestOpen, n);
            (k in u.conflicts <==> k in t.conflicts) && (k in t.conflicts ==> u.conflicts[k] == t.conflicts[k])
  {
    if n > 0 {
      LogUnchanged(t, series, tf, bars, now, latestOpen, n - 1, k);
      ConflictStep(t, series, tf, bars, now, latestOpen, n, k);
    }
  }

  ghost predicate LastDisagreeing(t: Tables, series: nat, tf: Tf, bars: seq<Bar>, now: int, latestOpen: int, n: nat,
                                  k: Key, i: int)
  {
    && 0 <= i < n <= |bars| && Key(series, tf, bars[i].ts) == k && Disagrees(t, series, tf, bars, now, latestOpen, i)
    && forall j :: i < j < n && Key(series, tf, bars[j].ts) == k ==>
                     !Disagrees(t, series, tf, bars, now, latestOpen, j)
  }

  lemma ConflictStep(t: Tables, series: nat, tf: Tf, bars: seq<Bar>, now: int, latestOpen: int, n: nat, k: Key)
    requires 0 < n <= |bars|
    ensures var s, u := RestUpTo(t, series, tf, bars, now, latestOpen, n - 1),
                        RestUpTo(t, series, tf, bars, now, latestOpen, n);
            if Key(series, tf, bars[n - 1].ts) == k && Disagrees(t, series, tf, bars, now, latestOpen, n - 1)
            then k in u.conflicts && u.conflicts[k].bar == bars[n - 1].bar
            else (k in u.conflicts <==> k in s.conflicts) && (k in s.conflicts ==> u.conflicts[k] == s.conflicts[k])
  {
  }

  /** What each case means for the tables. */
  lemma MeetsMeans(t: Tables, k: Key, bar: Ohlcv, now: int, latestOpen: int)
    ensures var u, met := RestOne(t, k, bar, now, latestOpen), MeetsOne(t, k, bar, latestOpen);
            && (met == TooNew <==> latestOpen < k.open)
            && (met == Free <==> k !in t.rows && k in u.rows)
            && (met == OfCapture <==> k in t.rows && t.rows[k].source == Capture && u.rows[k].source == Rest)
            && (met == StillOpen <==> k in t.rows && t.rows[k].source != Capture && u.rows[k] != t.rows[k])
            && (met == Closed <==> k.open <= latestOpen && Frozen(t, k) && t.rows[k].bar != bar)
            && (met in {TooNew, SameBar, Closed} <==> u.rows == t.rows)
            && (met in {Free, SameBar, OfCapture, StillOpen} ==>
                  u.rows[k].bar == bar && u.rows[k].source == Rest && u.conflicts == t.conflicts)
  {
    if k in t.rows && t.rows[k].source == Capture {
      assert !Frozen(t, k);
    }
  }

  /** How many of the first `n` bars meet what. */
  function CountMet(t: Tables, series: nat, tf: Tf, bars: seq<Bar>, now: int, latestOpen: int, n: nat, m: Met): nat
    requires n <= |bars|
  {
    if n == 0 then 0
    else
      var last := bars[n - 1];
      var met := MeetsOne(RestUpTo(t, series, tf, bars, now, latestOpen, n - 1), Key(series, tf, last.ts), last.bar,
                          latestOpen);
      CountMet(t, series, tf, bars, now, latestOpen, n - 1, m) + if met == m then 1 else 0
  }

  lemma {:induction false} RestKeeps(t: Tables, series: nat, tf: Tf, bars: seq<Bar>, now: int, latestOpen: int,
                                     i: nat, clock: int)
    requires i <= |bars|
    ensures var u := RestUpTo(t, series, tf, bars, now, latestOpen, i);
            Extends(t, u) && (i > 0 && Sound(t, clock) && clock <= now ==> Sound(u, now))
  {
    if i > 0 {
      var last := bars[i - 1];
      var u := RestUpTo(t, series, tf, bars, now, latestOpen, i - 1);
      RestKeeps(t, series, tf, bars, now, latestOpen, i - 1, clock);
      var k := Key(series, tf, last.ts);
      RestOneKeeps(u, k, last.bar, now, latestOpen, if i > 1 then now else clock);
      ExtendsTrans(t, u, RestOne(u, k, last.bar, now, latestOpen));
    }
  }

  lemma CaptureOneKeeps(t: Tables, b: MinuteBar, now: int, clock: int)
    ensures Extends(t, CaptureOne(t, b, now))
    ensures Sound(t, clock) && clock <= now ==> Sound(CaptureOne(t, b, now), now)
  {
  }

  lemma {:induction false} CaptureKeeps(t: Tables, bars: seq<MinuteBar>, now: int, i: nat, clock: int)
    requires i <= |bars|
    ensures var u := CaptureUpTo(t, bars, now, i);
            Extends(t, u) && (i > 0 && Sound(t, clock) && clock <= now ==> Sound(u, now))
  {
    if i > 0 {
      var u := CaptureUpTo(t, bars, now, i - 1);
      CaptureKeeps(t, bars, now, i - 1, clock);
      CaptureOneKeeps(u, bars[i - 1], now, if i > 1 then now else clock);
      ExtendsTrans(t, u, CaptureOne(u, bars[i - 1], now));
    }
  }

  lemma SoundLater(t: Tables, clock: int, now: int)
    requires Sound(t, clock) && clock <= now
    ensures Sound(t, now)
  {
  }

  /** The purge removes exactly what opens too far ahead and changes nothing else. With a clock that has
      not gone back that is no frozen row. */
  lemma PurgeKeeps(t: Tables, now: int, clock: int)
    ensures Purged(t, now).conflicts == t.conflicts
    ensures forall k :: k in Purged(t, now).rows <==> k in t.rows && k.open <= now + FUTURE_SKEW
    ensures forall k :: k in Purged(t, now).rows ==> Purged(t, now).rows[k] == t.rows[k]
    ensures Sound(t, clock) && clock <= now ==> Sound(Purged(t, now), now) && Keeps(t, Purged(t, now))
  {
  }

  // -- the stored opens --------------------------------------------------

  function Opens(t: Tables, series: nat, tf: Tf): set<int> {
    set k | k in t.rows && k.series == series && k.tf == tf :: k.open
  }

  /** The opens of the first `i` bars that are not refused. */
  function Accepted(bars: seq<Bar>, latestOpen: int, i: nat): set<int>
    requires i <= |bars|
  {
    set j | 0 <= j < i && bars[j].ts <= latestOpen :: bars[j].ts
  }

  /** A page stores exactly its bars that open at most a minute after it was fetched, or after the cycle's
      clock when that is not known. */
  lemma PageStores(t: Tables, series: nat, tf: Tf, bars: seq<Bar>, now: int, fetched: Option<int>, x: int)
    ensures x in Opens(RestAll(t, series, tf, bars, now, LatestOpen(now, fetched)), series, tf) <==>
            || x in Opens(t, series, tf)
            || exists i :: 0 <= i < |bars| && bars[i].ts == x
                           && x <= 60_000 + (match fetched case Some(f) => f case None => now)
  {
    RestOpens(t, series, tf, bars, now, LatestOpen(now, fetched), |bars|);
  }

  /** The upsert stores exactly the bars it does not refuse, and touches no other series. */
  lemma {:induction false} RestOpens(t: Tables, series: nat, tf: Tf, bars: seq<Bar>, now: int, latestOpen: int,
                                     i: nat)
    requires i <= |bars|
    ensures var u := RestUpTo(t, series, tf, bars, now, latestOpen, i);
            && Opens(u, series, tf) == Opens(t, series, tf) + Accepted(bars, latestOpen, i)
            && (forall k: Key :: k.series != series || k.tf != tf ==> Lookup(u, k) == Lookup(t, k))
  {
    if i > 0 {
      RestOpens(t, series, tf, bars, now, latestOpen, i - 1);
      var u := RestUpTo(t, series, tf, bars, now, latestOpen, i - 1);
      OneOpens(u, Key(series, tf, bars[i - 1].ts), bars[i - 1].bar, now, latestOpen);
    }
  }

  lemma OneOpens(t: Tables, k: Key, bar: Ohlcv, now: int, latestOpen: int)
    ensures var u := RestOne(t, k, bar, now, latestOpen);
            Opens(u, k.series, k.tf) == Opens(t, k.series, k.tf) + (if k.open <= latestOpen then {k.open} else {})
  {
    var u := RestOne(t, k, bar, now, latestOpen);
    assert forall j :: j in u.rows <==> j in t.rows || (j == k && k.open <= latestOpen);
    forall x
      ensures x in Opens(u, k.series, k.tf) <==> x in Opens(t, k.series, k.tf) || (x == k.open && k.open <= latestOpen)
    {
      assert x in Opens(u, k.series, k.tf) <==> Key(k.series, k.tf, x) in u.rows;
      assert x in Opens(t, k.series, k.tf) <==> Key(k.series, k.tf, x) in t.rows;
    }
  }

  // -- the store ---------------------------------------------------------

  class Store {
    var tables: Tables

    constructor ()
      ensures tables == Tables(map[], map[])
    {
      tables := Tables(map[], map[]);
    }

    method UpsertOne(k: Key, bar: Ohlcv, now: int, latestOpen: int, s: Stats) returns (r: Stats)
      modifies this
      ensures tables == RestOne(old(tables), k, bar, now, latestOpen)
      ensures Counted(r) == Counted(s) + 1
      ensures r == Bumped(s, MeetsOne(old(tables), k, bar, latestOpen))
      ensures |tables.rows| == |old(tables).rows| + (r.inserted - s.inserted)
    {
      if k.open > latestOpen {
        r := s.(refused := s.refused + 1);
      } else if k !in tables.rows {
        tables := tables.(rows := tables.rows[k := Row(bar, None, Rest, now)]);
        r := s.(inserted := s.inserted + 1);
      } else {
        var row := tables.rows[k];
        if row.source == Rest && row.bar == bar {
          r := s.(same := s.same + 1);
        } else if row.source == Rest && k.open + TfMs(k.tf) <= row.fetched {
          tables := tables.(conflicts := tables.conflicts[k := Conflict(bar, FirstSeen(tables, k, now))]);
          r := s.(conflicts := s.conflicts + 1);
        } else {
          tables := tables.(rows := tables.rows[k := Row(bar, row.n, Rest, now)]);
          r := if row.source == Capture then s.(superseded := s.superseded + 1)
               else s.(updatedOpen := s.updatedOpen + 1);
        }
      }
    }

    /** One page of fetched bars; every bar is counted once, in the column of what it met, and the table has
        a row more for each one inserted. */
    method UpsertRest(series: nat, tf: Tf, bars: seq<Bar>, now: int, fetched: Option<int>) returns (s: Stats)
      modifies this
      ensures tables == RestAll(old(tables), series, tf, bars, now, LatestOpen(now, fetched))
      ensures Counted(s) == |bars| && |tables.rows| == |old(tables).rows| + s.inserted
      ensures Tallies(s, old(tables), series, tf, bars, now, LatestOpen(now, fetched), |bars|)
    {
      var latestOpen := LatestOpen(now, fetched);
      s := Stats(0, 0, 0, 0, 0, 0);
      assert Counted(s) == 0;
      for i := 0 to |bars|
        invariant tables == RestUpTo(old(tables), series, tf, bars, now, latestOpen, i)
        invariant Counted(s) == i && |tables.rows| == |old(tables).rows| + s.inserted
        invariant Tallies(s, old(tables), series, tf, bars, now, latestOpen, i)
      {
        TalliesStep(s, old(tables), series, tf, bars, now, latestOpen, i);
        s := UpsertOne(Key(series, tf, bars[i].ts), bars[i].bar, now, latestOpen, s);
      }
    }

    /** Capture bars land only where no other row holds the key. The counters say what happened: a row
        more for each inserted bar, a bar kept out for each key another kind of row holds, and nothing
        changed when nothing was inserted or refreshed. */
    method UpsertCapture(bars: seq<MinuteBar>, now: int) returns (inserted: nat, refreshed: nat, kept: nat)
      modifies this
      ensures tables == CaptureAll(old(tables), bars, now)
      ensures |tables.rows| == |old(tables).rows| + inserted
      ensures kept == HeldByOthers(old(tables), bars, |bars|)
      ensures inserted + refreshed + kept <= |bars|
      ensures inserted == 0 && refreshed == 0 ==> tables == old(tables)
    {
      inserted, refreshed, kept := 0, 0, 0;
      for i := 0 to |bars|
        invariant tables == CaptureUpTo(old(tables), bars, now, i)
        invariant |tables.rows| == |old(tables).rows| + inserted
        invariant kept == HeldByOthers(old(tables), bars, i)
        invariant inserted + refreshed + kept <= i
        invariant inserted == 0 && refreshed == 0 ==> tables == old(tables)
      {
        CaptureLeavesOthers(old(tables), bars, now, i, KeyOf(bars[i]));
        var what := CaptureMinute(bars[i], now);
        match what {
          case NewBar => inserted := inserted + 1;
          case KeptOut => kept := kept + 1;
          case Unchanged =>
          case Refreshed => refreshed := refreshed + 1;
        }
      }
    }

    method CaptureMinute(b: MinuteBar, now: int) returns (what: Captured)
      modifies this
      ensures tables == CaptureOne(old(tables), b, now)
      ensures |tables.rows| == |old(tables).rows| + if what == NewBar then 1 else 0
      ensures what == KeptOut <==> OtherHolds(old(tables), KeyOf(b))
      ensures what in {KeptOut, Unchanged} ==> tables == old(tables)
    {
      var k := KeyOf(b);
      if k !in tables.rows {
        tables := tables.(rows := tables.rows[k := Row(Ohlcv(b.o, b.h, b.l, b.c, None), Some(b.n), Capture, now)]);
        return NewBar;
      }
      var row := tables.rows[k];
      if row.source != Capture {
        return KeptOut;
      }
      if (row.bar.o, row.bar.h, row.bar.l, row.bar.c, row.n) == (b.o, b.h, b.l, b.c, Some(b.n)) {
        return Unchanged;
      }
      tables := tables.(rows := tables.rows[k := Row(Ohlcv(b.o, b.h, b.l, b.c, row.bar.v), Some(b.n), Capture, now)]);
      return Refreshed;
    }

    /** Deletes the bars that open too far ahead, timeframe by timeframe, and reports how many went of
        each series that lost any, sorted. */
    method PurgeFuture(now: int) returns (out: seq<Purge>)
      modifies this
      ensures tables == Purged(old(tables), now)
      ensures SortedBy(PurgeLe, out)
      ensures forall i, j :: 0 <= i < j < |out| ==>
                || out[i].series < out[j].series
                || (out[i].series == out[j].series && TfRank(out[i].tf) <= TfRank(out[j].tf))
      ensures forall p :: p in out <==> p.n == |Ahead(old(tables), p.series, p.tf, now)| > 0
    {
      out := [];
      ghost var before := tables;
      for i := 0 to |TFS|
        invariant tables == PurgedUpTo(before, now, i)
        invariant forall p :: p in out <==> p.tf in TFS[..i] && p.n == |Ahead(before, p.series, p.tf, now)| > 0
      {
        var tf := TFS[i];
        PurgeStep(before, now, i);
        var lost := CountAhead(tables, tf, now);
        out := out + lost;
        var bound := now + FUTURE_SKEW;
        tables := tables.(rows := map k | k in tables.rows && !(k.tf == tf && k.open > bound) :: tables.rows[k]);
      }
      AllTimeframes(before, now);
      ghost var found := out;
      out := Sort(PurgeLe, out);
      PurgeOrder();
      SortLaw(PurgeLe, found);
      SortMembers(PurgeLe, found);
      assert forall i, j :: 0 <= i < j < |out| ==> PurgeLe(out[i], out[j]);
    }
  }
}
