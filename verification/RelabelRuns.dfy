/** The evidence stores over time: relabels and merges in any order, and when the venue's law, once
    reached, is kept. */
module RelabelRuns {
  import opened Options
  import opened Sealing
  import opened Sorting
  import opened Evidence
  import opened Relabel

  // -- when keys stay unique ---------------------------------------------

  /** A covered row moves onto the stamp of a row no capture covers. */
  predicate Clashes(rows: seq<Row>, c: Captures, i: nat, j: nat)
    requires i < |rows| && j < |rows|
  {
    Covered(rows[i], c) && Uncovered(rows[j], c) && KeyOf(Moved(rows[i], c)) == KeyOf(rows[j])
  }

  predicate Clash(rows: seq<Row>, c: Captures) {
    exists i, j :: 0 <= i < |rows| && 0 <= j < |rows| && Clashes(rows, c, i, j)
  }

  lemma ImagesDiffer(rows: seq<Row>, c: Captures, i: nat, j: nat)
    requires Unique(rows) && i < |rows| && j < |rows| && i != j
    requires !Clashes(rows, c, i, j) && !Clashes(rows, c, j, i)
    requires Image(rows, c, i).Some? && Image(rows, c, j).Some?
    ensures KeyOf(Image(rows, c, i).value) != KeyOf(Image(rows, c, j).value)
  {
    assert Opened(Seal);
    assert KeyOf(rows[i]) != KeyOf(rows[j]);
  }

  lemma NewKey(s: seq<Row>, r: Row)
    requires forall o :: o in s ==> KeyOf(o) != KeyOf(r)
    ensures KeyOf(r) !in KeysOf(s)
  {
  }

  lemma {:induction false} VenueUnique(rows: seq<Row>, c: Captures, n: nat)
    requires Unique(rows) && n <= |rows|
    ensures Unique(VenueRows(rows, c.labels, n))
  {
    if n > 0 {
      VenueUnique(rows, c, n - 1);
      if OnVenue(rows[n - 1]) {
        var s, r := VenueRows(rows, c.labels, n - 1), Filled(rows[n - 1], c.labels);
        assert Image(rows, c, n - 1) == Some(r);
        forall o | o in s
          ensures KeyOf(o) != KeyOf(r)
        {
          VenueMembers(rows, c, n - 1, o);
          var i :| 0 <= i < n - 1 && OnVenue(rows[i]) && Image(rows, c, i) == Some(o);
          ImagesDiffer(rows, c, i, n - 1);
        }
        NewKey(s, r);
        UniqueSnoc(s, r);
      }
    }
  }

  /** What row `n` adds to the file differs in key from everything there, if it clashes with nothing. */
  lemma EngineRowIsNew(rows: seq<Row>, c: Captures, n: nat, o: Row)
    requires Unique(rows) && n < |rows| && !OnVenue(rows[n]) && Image(rows, c, n).Some?
    requires o in VenueRows(rows, c.labels, |rows|) + EngineRows(rows, c, n)
    requires forall i :: 0 <= i < n ==> !Clashes(rows, c, i, n)
    requires OnVenue(o) || forall j :: 0 <= j < n ==> !Clashes(rows, c, n, j)
    ensures KeyOf(o) != KeyOf(Image(rows, c, n).value)
  {
    if o in VenueRows(rows, c.labels, |rows|) {
      VenueMembers(rows, c, |rows|, o);
      var i :| 0 <= i < |rows| && OnVenue(rows[i]) && Image(rows, c, i) == Some(o);
      ImagesDiffer(rows, c, i, n);
    } else {
      EngineMembers(rows, c, n, o);
      var i :| 0 <= i < n && o in EngineRow(rows, c, i);
      EngineRowMember(rows, c, i, o);
      ImagesDiffer(rows, c, i, n);
    }
  }

  lemma {:induction false} EngineUnique(rows: seq<Row>, c: Captures, n: nat)
    requires Unique(rows) && !Clash(rows, c) && n <= |rows|
    ensures Unique(VenueRows(rows, c.labels, |rows|) + EngineRows(rows, c, n))
  {
    var venue := VenueRows(rows, c.labels, |rows|);
    if n == 0 {
      VenueUnique(rows, c, |rows|);
      assert venue + [] == venue;
    } else {
      EngineUnique(rows, c, n - 1);
      var s := venue + EngineRows(rows, c, n - 1);
      AddsOne(rows, c, n - 1);
      if !OnVenue(rows[n - 1]) && Image(rows, c, n - 1).Some? {
        EngineKeyIsNew(rows, c, n - 1);
        UniqueSnoc(s, Image(rows, c, n - 1).value);
      }
    }
  }

  lemma EngineKeyIsNew(rows: seq<Row>, c: Captures, n: nat)
    requires Unique(rows) && !Clash(rows, c) && n < |rows| && !OnVenue(rows[n]) && Image(rows, c, n).Some?
    ensures KeyOf(Image(rows, c, n).value)
            !in KeysOf(VenueRows(rows, c.labels, |rows|) + EngineRows(rows, c, n))
  {
    var s, r := VenueRows(rows, c.labels, |rows|) + EngineRows(rows, c, n), Image(rows, c, n).value;
    forall o | o in s
      ensures KeyOf(o) != KeyOf(r)
    {
      EngineRowIsNew(rows, c, n, o);
    }
    NewKey(s, r);
  }

  lemma AddsOne(rows: seq<Row>, c: Captures, n: nat)
    requires n < |rows|
    ensures var before := VenueRows(rows, c.labels, |rows|) + EngineRows(rows, c, n);
            VenueRows(rows, c.labels, |rows|) + EngineRows(rows, c, n + 1)
            == if !OnVenue(rows[n]) && Image(rows, c, n).Some? then before + [Image(rows, c, n).value] else before
  {
  }

  /** The relabelled file has a row per key exactly when no covered row moves onto an uncovered one. */
  lemma UniqueAfter(rows: seq<Row>, c: Captures)
    requires Unique(rows)
    ensures Unique(RelabelledFile(rows, c)) <==> !Clash(rows, c)
  {
    if Clash(rows, c) {
      var i, j :| 0 <= i < |rows| && 0 <= j < |rows| && Clashes(rows, c, i, j);
      NothingLost(rows, c, i);
      NothingLost(rows, c, j);
      var o :| o in RelabelledFile(rows, c) && OnVenue(o) && KeyOf(o) == KeyOf(rows[j]);
      if Unique(RelabelledFile(rows, c)) {
        SameKeySame(RelabelledFile(rows, c), o, rows[j]);
      }
    } else {
      EngineUnique(rows, c, |rows|);
      RowOrder();
      SortLaw(RowLe, Unsorted(rows, c));
      SortMembers(RowLe, Unsorted(rows, c));
      UniquePermuted(Unsorted(rows, c), RelabelledFile(rows, c));
    }
  }

  /** The entry store's key has no stamp in it, so there nothing ever clashes. */
  lemma EntriesNeverClash(rows: seq<Row>, c: Captures)
    requires Unique(rows) && forall r :: r in rows ==> r.Entry?
    ensures !Clash(rows, c) && Unique(RelabelledFile(rows, c))
  {
    forall i, j | 0 <= i < |rows| && 0 <= j < |rows|
      ensures !Clashes(rows, c, i, j)
    {
      assert rows[i] in rows && rows[j] in rows;
    }
    UniqueAfter(rows, c);
  }

  // -- the law is corrected, never reverted ------------------------------

  predicate Samples(rows: seq<Row>) { forall r :: r in rows ==> r.Ledger? }

  lemma LastWordCons(x: Row, s: seq<Row>, r: Row)
    ensures LastWord([x] + s, r) <==> LastWord(s, r) || (x == r && KeyOf(r) !in KeysOf(s))
  {
    var all := [x] + s;
    if LastWord(s, r) {
      var j :| 0 <= j < |s| && s[j] == r && Later(s, j);
      assert all[j + 1] == r && Later(all, j + 1);
    }
    if x == r && KeyOf(r) !in KeysOf(s) {
      forall m | 0 < m < |all|
        ensures KeyOf(all[m]) != KeyOf(all[0])
      {
        assert KeyOf(s[m - 1]) in KeysOf(s);
      }
      assert all[0] == r && Later(all, 0);
    }
    if LastWord(all, r) {
      var j :| 0 <= j < |all| && all[j] == r && Later(all, j);
      if j > 0 {
        forall m | j - 1 < m < |s|
          ensures KeyOf(s[m]) != KeyOf(s[j - 1])
        {
          assert KeyOf(all[m + 1]) != KeyOf(all[j]);
        }
        assert s[j - 1] == r && Later(s, j - 1);
      } else {
        forall m | 0 <= m < |s|
          ensures KeyOf(s[m]) != KeyOf(r)
        {
          assert KeyOf(all[m + 1]) != KeyOf(all[0]);
        }
      }
    }
  }

  lemma KeysOfCons(x: Row, s: seq<Row>)
    ensures KeysOf([x] + s) == {KeyOf(x)} + KeysOf(s)
  {
    var all := [x] + s;
    forall k
      ensures k in KeysOf(all) <==> k in {KeyOf(x)} + KeysOf(s)
    {
      assert KeyOf(all[0]) == KeyOf(x);
      if k in KeysOf(s) {
        var i :| 0 <= i < |s| && KeyOf(s[i]) == k;
        assert all[i + 1] == s[i];
      }
    }
  }

  /** Insertion leaves rows of one key in the order they were in. */
  lemma {:induction false} InsertStable(x: Row, s: seq<Row>, r: Row)
    requires x.Ledger? && Samples(s)
    ensures LastWord(Insert(RowLe, x, s), r) <==> LastWord([x] + s, r)
    ensures KeysOf(Insert(RowLe, x, s)) == {KeyOf(x)} + KeysOf(s)
  {
    KeysOfCons(x, s);
    if s != [] && !RowLe(x, s[0]) {
      var y, t := s[0], s[1..];
      assert s == [y] + t && y in s;
      InsertStable(x, t, r);
      KeysOfCons(y, Insert(RowLe, x, t));
      KeysOfCons(y, t);
      LastWordCons(y, Insert(RowLe, x, t), r);
      LastWordCons(x, t, r);
      LastWordCons(y, t, r);
      LastWordCons(x, s, r);
    }
  }

  lemma {:induction false} SortStable(s: seq<Row>, r: Row)
    requires Samples(s)
    ensures LastWord(Sort(RowLe, s), r) <==> LastWord(s, r)
    ensures KeysOf(Sort(RowLe, s)) == KeysOf(s)
  {
    if s != [] {
      var x, t := s[0], s[1..];
      assert s == [x] + t && x in s;
      SortStable(t, r);
      RowOrder();
      SortMembers(RowLe, t);
      InsertStable(x, Sort(RowLe, t), r);
      LastWordCons(x, Sort(RowLe, t), r);
      LastWordCons(x, t, r);
      KeysOfCons(x, t);
    }
  }

  /** A covered row moves onto the stamp of an uncovered row further down the file. */
  predicate ClashBefore(rows: seq<Row>, c: Captures) {
    exists i, j :: 0 <= i < j < |rows| && Clashes(rows, c, i, j)
  }

  ghost function SoFar(rows: seq<Row>, c: Captures, n: nat): seq<Row>
    requires n <= |rows|
  {
    VenueRows(rows, c.labels, |rows|) + EngineRows(rows, c, n)
  }

  lemma UniqueLast(s: seq<Row>, r: Row)
    requires Unique(s) && r in s
    ensures LastWord(s, r)
  {
    var j :| 0 <= j < |s| && s[j] == r;
    assert Later(s, j);
  }

  lemma {:induction false} VenueLast(rows: seq<Row>, c: Captures, n: nat, r: Row)
    requires Unique(rows) && !ClashBefore(rows, c) && n <= |rows|
    requires r in SoFar(rows, c, n) && OnVenue(r)
    ensures LastWord(SoFar(rows, c, n), r)
  {
    if n == 0 {
      VenueUnique(rows, c, |rows|);
      assert SoFar(rows, c, 0) == VenueRows(rows, c.labels, |rows|);
      UniqueLast(SoFar(rows, c, 0), r);
    } else {
      AddsOne(rows, c, n - 1);
      var before := SoFar(rows, c, n - 1);
      if SoFar(rows, c, n) == before {
        VenueLast(rows, c, n - 1, r);
      } else {
        var e := Image(rows, c, n - 1).value;
        LastWordSnoc(before, e, r);
        if r != e {
          VenueLast(rows, c, n - 1, r);
          EngineRowIsNew(rows, c, n - 1, r);
        }
      }
    }
  }

  lemma {:induction false} ClashLoses(rows: seq<Row>, c: Captures, p: nat, j: nat, n: nat)
    requires p < j < n <= |rows| && Clashes(rows, c, p, j) && FateOf(rows, c, p) == Converted
    ensures !LastWord(SoFar(rows, c, n), Moved(rows[p], c))
  {
    if n == j + 1 {
      AddsOne(rows, c, j);
      LastWordSnoc(SoFar(rows, c, j), rows[j], Moved(rows[p], c));
    } else {
      ClashLoses(rows, c, p, j, n - 1);
      LossStays(rows, c, p, n - 1);
    }
  }

  lemma LossStays(rows: seq<Row>, c: Captures, p: nat, n: nat)
    requires p < n < |rows| && Covered(rows[p], c) && !LastWord(SoFar(rows, c, n), Moved(rows[p], c))
    ensures !LastWord(SoFar(rows, c, n + 1), Moved(rows[p], c))
  {
    AddsOne(rows, c, n);
    if !OnVenue(rows[n]) && Image(rows, c, n).Some? {
      MovesOnce(rows, c, p, n);
      LastWordSnoc(SoFar(rows, c, n), Image(rows, c, n).value, Moved(rows[p], c));
    }
  }

  /** No second row moves to a key one has moved to. */
  lemma MovesOnce(rows: seq<Row>, c: Captures, p: nat, m: nat)
    requires p < m < |rows| && Covered(rows[p], c) && !OnVenue(rows[m]) && Image(rows, c, m).Some?
    ensures Image(rows, c, m).value != Moved(rows[p], c)
  {
    assert Opened(Seal);
    assert KeyOf(Moved(rows[p], c)) in MovedKeys(rows, c, m);
  }

  /** After a relabel of the ledger no merge can put an engine row back over a venue row, exactly
      when no covered row moves onto the stamp of an uncovered row further down the file. */
  lemma LawKept(rows: seq<Row>, c: Captures)
    requires Unique(rows) && Samples(rows)
    ensures (forall incoming: seq<Row>, r ::
               r in RelabelledFile(rows, c) && VenueSample(r) ==>
                 r in MergedDict(RelabelledFile(rows, c), incoming).Values)
            <==> !ClashBefore(rows, c)
  {
    var file := RelabelledFile(rows, c);
    VenueRowsStay(file);
    SamplesStay(rows, c);
    assert SoFar(rows, c, |rows|) == Unsorted(rows, c);
    if ClashBefore(rows, c) {
      var i, j :| 0 <= i < j < |rows| && Clashes(rows, c, i, j);
      var r := ClashWitness(rows, c, i, j);
      SortStable(Unsorted(rows, c), r);
    } else {
      forall r | r in file && VenueSample(r)
        ensures LastWord(file, r)
      {
        VenueHasLastWord(rows, c, r);
      }
    }
  }

  lemma VenueHasLastWord(rows: seq<Row>, c: Captures, r: Row)
    requires Unique(rows) && Samples(rows) && !ClashBefore(rows, c)
    requires r in RelabelledFile(rows, c) && OnVenue(r)
    ensures LastWord(RelabelledFile(rows, c), r)
  {
    SamplesStay(rows, c);
    assert SoFar(rows, c, |rows|) == Unsorted(rows, c);
    FileIsImages(rows, c, r);
    VenueLast(rows, c, |rows|, r);
    SortStable(Unsorted(rows, c), r);
  }

  lemma ClashWitness(rows: seq<Row>, c: Captures, i: nat, j: nat) returns (r: Row)
    requires Unique(rows) && Samples(rows) && i < j < |rows| && Clashes(rows, c, i, j)
    ensures r in RelabelledFile(rows, c) && VenueSample(r) && !LastWord(Unsorted(rows, c), r)
  {
    EngineKeyIsFree(rows, j);
    var p := FirstMover(rows, c, i, KeyOf(rows[j]));
    r := Moved(rows[p], c);
    assert rows[p] in rows && Image(rows, c, p) == Some(r);
    NothingLost(rows, c, p);
    ClashLoses(rows, c, p, j, |rows|);
  }

  lemma SamplesStay(rows: seq<Row>, c: Captures)
    requires Samples(rows)
    ensures Samples(Unsorted(rows, c)) && Samples(RelabelledFile(rows, c))
  {
    forall o | o in Unsorted(rows, c) || o in RelabelledFile(rows, c)
      ensures o.Ledger?
    {
      FileIsImages(rows, c, o);
      var i :| 0 <= i < |rows| && Image(rows, c, i) == Some(o);
      assert rows[i] in rows;
    }
  }

  // -- and through a further relabel -------------------------------------

  lemma SecondHasIt(s: seq<Row>, t: seq<Row>, r: Row, u: Row)
    requires r !in t && u in t && KeyOf(u) == KeyOf(r)
    ensures !LastWord(s + t, r)
  {
    var all := s + t;
    var i :| 0 <= i < |t| && t[i] == u;
    forall j | 0 <= j < |all| && Later(all, j)
      ensures all[j] != r
    {
      if j < |s| {
        assert KeyOf(all[|s| + i]) != KeyOf(all[j]);
      } else {
        assert all[j] == t[j - |s|];
      }
    }
  }

  /** A relabel lists the venue rows first, so an engine row it leaves alone ends up behind the venue
      row on its key, wherever it stood. */
  lemma RelabelSwaps(file: seq<Row>, c: Captures, v: Row, u: Row)
    requires Samples(file) && v in file && OnVenue(v) && u in file && Uncovered(u, c) && KeyOf(u) == KeyOf(v)
    ensures Filled(v, c.labels) in RelabelledFile(file, c)
    ensures !LastWord(RelabelledFile(file, c), Filled(v, c.labels))
  {
    VenueRowStays(file, c, v);
    var i :| 0 <= i < |file| && file[i] == u;
    EngineMembers(file, c, |file|, u);
    assert u in EngineRow(file, c, i);
    var w := Filled(v, c.labels);
    LeftBehind(file, c, v, w);
    SecondHasIt(VenueRows(file, c.labels, |file|), EngineRows(file, c, |file|), w, u);
    FileLoses(file, c, w);
  }

  /** No converted row takes the key a venue row holds. */
  lemma LeftBehind(file: seq<Row>, c: Captures, v: Row, w: Row)
    requires v in file && OnVenue(v) && KeyOf(w) == KeyOf(v) && OnVenue(w)
    ensures w !in EngineRows(file, c, |file|)
  {
    var n :| 0 <= n < |file| && file[n] == v;
    assert KeyOf(v) in VenueKeys(file);
    EngineMembers(file, c, |file|, w);
    forall i | 0 <= i < |file|
      ensures w !in EngineRow(file, c, i)
    {
      EngineRowMember(file, c, i, w);
      assert Opened(Seal);
    }
  }

  // -- the lane ----------------------------------------------------------

  /** The file after a relabel: replaced only if something was converted, filled or dropped. */
  ghost function Written(rows: seq<Row>, c: Captures): seq<Row> {
    if Idle(rows, c) then rows else RelabelledFile(rows, c)
  }

  ghost predicate Idle(rows: seq<Row>, c: Captures) {
    && CountFate(rows, c, Converted, |rows|) == 0 && CountFate(rows, c, Collided, |rows|) == 0
    && CountFills(rows, c.labels, |rows|) == 0
  }

  method RelabelLane(rows: seq<Row>, c: Captures) returns (file: seq<Row>, wrote: bool)
    ensures file == Written(rows, c) && (!wrote ==> file == rows)
  {
    var out, count := RelabelStore(rows, c);
    wrote := count.converted != 0 || count.collided != 0 || count.filled != 0;
    file := if wrote then out else rows;
  }

  /** Running the lane again over the same captures leaves the file exactly as it is. */
  lemma LaneTwice(rows: seq<Row>, c: Captures)
    ensures Written(Written(rows, c), c) == Written(rows, c)
  {
    FileIsQuiet(rows, c);
    QuietCounts(RelabelledFile(rows, c), c, |RelabelledFile(rows, c)|);
  }

  // -- and through a further run of the lane -----------------------------

  /** Every venue row of the file outlives a run of the lane and a merge, filled as the lane fills it. */
  ghost predicate Outlive(file: seq<Row>) {
    forall again: Captures, incoming: seq<Row>, r ::
      r in file && VenueSample(r) ==> Filled(r, again.labels) in MergedDict(Written(file, again), incoming).Values
  }

  /** The lane can write the file only by moving every engine row it has: each venue row is settled, and
      the engine rows share one stamp. */
  ghost predicate Stuck(file: seq<Row>) {
    && (forall r :: r in file && OnVenue(r) ==> Settled(r))
    && forall u, w :: u in file && w in file && !OnVenue(u) && !OnVenue(w) ==> u.ts == w.ts
  }

  /** What the lane leaves alone has nothing to fill. */
  lemma {:induction false} NoFills(rows: seq<Row>, labels: Labels, n: nat, r: Row)
    requires n <= |rows| && CountFills(rows, labels, n) == 0 && r in rows[..n] && OnVenue(r)
    ensures !Fills(r, labels)
  {
    if r != rows[n - 1] {
      var i :| 0 <= i < n && rows[..n][i] == r;
      assert rows[..n - 1][i] == r;
      NoFills(rows, labels, n - 1, r);
    }
  }

  /** A row on the venue's law that has the last word in the file outlives any merge. */
  lemma LastWordOutlives(file: seq<Row>, incoming: seq<Row>, r: Row)
    requires VenueSample(r) && LastWord(file, r)
    ensures r in MergedDict(file, incoming).Values
  {
    DictHolds(file, r);
    MergeImproves(DictOf(file), incoming, |incoming|, KeyOf(r));
    assert MergedDict(file, incoming)[KeyOf(r)] == r;
  }

  /** So it does the lane and a merge, if the lane is idle or leaves it the last word. */
  lemma LaneOutlived(file: seq<Row>, again: Captures, incoming: seq<Row>, r: Row)
    requires r in file && VenueSample(r) && LastWord(file, r)
    requires Idle(file, again) || LastWord(RelabelledFile(file, again), Filled(r, again.labels))
    ensures Filled(r, again.labels) in MergedDict(Written(file, again), incoming).Values
  {
    if Idle(file, again) {
      assert file[..|file|] == file;
      NoFills(file, again.labels, |file|, r);
      LastWordOutlives(file, incoming, r);
    } else {
      LastWordOutlives(RelabelledFile(file, again), incoming, Filled(r, again.labels));
    }
  }

  /** A venue row keeps the last word through a relabel that moves every engine row on its key. */
  lemma RelabelLasts(file: seq<Row>, c: Captures, r: Row)
    requires r in file && OnVenue(r)
    requires forall o :: o in file && KeyOf(o) == KeyOf(r) ==> o == r || Covered(o, c)
    ensures LastWord(RelabelledFile(file, c), Filled(r, c.labels))
  {
    var next, w := RelabelledFile(file, c), Filled(r, c.labels);
    VenueRowStays(file, c, r);
    DictIsRows(next);
    var d := DictOf(next);
    assert KeyOf(w) in d && d[KeyOf(w)] in next;
    OnlyVenueImages(file, c, r, d[KeyOf(w)]);
    DictHolds(next, w);
  }

  lemma KeyIsThere(rows: seq<Row>, r: Row)
    requires r in rows
    ensures KeyOf(r) in KeysOf(rows)
  {
    var i :| 0 <= i < |rows| && rows[i] == r;
  }

  /** Venue rows of a relabelled file never share a key. */
  lemma VenueRowsDiffer(rows: seq<Row>, c: Captures, x: Row, y: Row)
    requires Unique(rows) && x in RelabelledFile(rows, c) && y in RelabelledFile(rows, c)
    requires OnVenue(x) && OnVenue(y) && KeyOf(x) == KeyOf(y)
    ensures x == y
  {
    FileIsImages(rows, c, x);
    FileIsImages(rows, c, y);
    var i :| 0 <= i < |rows| && Image(rows, c, i) == Some(x);
    var j :| 0 <= j < |rows| && Image(rows, c, j) == Some(y);
    if i != j {
      ImagesDiffer(rows, c, i, j);
    }
  }

  /** If the lane writes a stuck file, captures cover every engine row of it. */
  lemma {:induction false} StuckIsCovered(file: seq<Row>, c: Captures, n: nat, o: Row)
    requires Stuck(file) && n <= |file| && o in file && !OnVenue(o)
    requires CountFate(file, c, Converted, n) + CountFate(file, c, Collided, n) > 0
    ensures Covered(o, c)
  {
    assert file[n - 1] in file;
    if FateOf(file, c, n - 1) == Already || FateOf(file, c, n - 1) == Unreached {
      StuckIsCovered(file, c, n - 1, o);
    }
  }

  lemma {:induction false} StuckFillsNone(file: seq<Row>, labels: Labels, n: nat)
    requires Stuck(file) && n <= |file|
    ensures CountFills(file, labels, n) == 0
  {
    if n > 0 {
      StuckFillsNone(file, labels, n - 1);
      assert file[n - 1] in file;
    }
  }

  lemma StuckOutlives(rows: seq<Row>, c: Captures, again: Captures, incoming: seq<Row>, r: Row)
    requires Unique(rows) && Samples(rows) && !ClashBefore(rows, c) && Stuck(RelabelledFile(rows, c))
    requires r in RelabelledFile(rows, c) && VenueSample(r)
    ensures Filled(r, again.labels) in MergedDict(Written(RelabelledFile(rows, c), again), incoming).Values
  {
    var file := RelabelledFile(rows, c);
    VenueHasLastWord(rows, c, r);
    StuckFillsNone(file, again.labels, |file|);
    if CountFate(file, again, Converted, |file|) + CountFate(file, again, Collided, |file|) > 0 {
      forall o | o in file && KeyOf(o) == KeyOf(r)
        ensures o == r || Covered(o, again)
      {
        if OnVenue(o) {
          VenueRowsDiffer(rows, c, o, r);
        } else {
          StuckIsCovered(file, again, |file|, o);
        }
      }
      RelabelLasts(file, again, r);
    }
    LaneOutlived(file, again, incoming, r);
  }

  lemma UniqueOutlives(file: seq<Row>, again: Captures, incoming: seq<Row>, r: Row)
    requires Unique(file) && r in file && VenueSample(r)
    ensures Filled(r, again.labels) in MergedDict(Written(file, again), incoming).Values
  {
    UniqueLast(file, r);
    forall o | o in file && KeyOf(o) == KeyOf(r)
      ensures o == r
    {
      SameKeySame(file, o, r);
    }
    RelabelLasts(file, again, r);
    LaneOutlived(file, again, incoming, r);
  }

  /** A run of the lane that writes the file and leaves an engine row of it alone costs the venue row on
      its key its place. */
  lemma SwapLoses(file: seq<Row>, again: Captures, v: Row, u: Row)
    requires Samples(file) && v in file && VenueSample(v) && u in file && Uncovered(u, again) && KeyOf(u) == KeyOf(v)
    requires Written(file, again) == RelabelledFile(file, again)
    ensures !Outlive(file)
  {
    var w, none := Filled(v, again.labels), [];
    RelabelSwaps(file, again, v, u);
    DictHolds(RelabelledFile(file, again), w);
    assert MergedDict(Written(file, again), none) == DictOf(RelabelledFile(file, again));
    assert w !in MergedDict(Written(file, again), none).Values;
  }

  /** Captures that know one label and cover nothing. */
  function LabelFor(outcome: int): Captures { Captures([], map[outcome := Label(0, Y_UNKNOWN)]) }

  /** A file that is not stuck can be written by the lane while it leaves an engine row alone. */
  lemma UnstuckMoves(file: seq<Row>, u: Row) returns (again: Captures)
    requires Samples(file) && u in file && !OnVenue(u) && !Stuck(file)
    ensures Written(file, again) == RelabelledFile(file, again) && Uncovered(u, again)
  {
    if x :| x in file && OnVenue(x) && !Settled(x) {
      again := LabelFor(x.outcome);
      var i :| 0 <= i < |file| && file[i] == x;
      FillsCount(file, again.labels, i, |file|);
    } else {
      var a, b :| a in file && b in file && !OnVenue(a) && !OnVenue(b) && a.ts != b.ts;
      var w := if a.ts != u.ts then a else b;
      again := CapturesAt(w.ts, 0);
      CoversOne(w.ts, 0, w.ts);
      CoversOne(w.ts, 0, u.ts);
      var i :| 0 <= i < |file| && file[i] == w;
      CountSees(file, again, FateOf(file, again, i), i, |file|);
    }
  }

  lemma {:induction false} FillsCount(rows: seq<Row>, labels: Labels, i: nat, n: nat)
    requires i < n <= |rows| && OnVenue(rows[i]) && Fills(rows[i], labels)
    ensures CountFills(rows, labels, n) > 0
  {
    if i < n - 1 {
      FillsCount(rows, labels, i, n - 1);
    }
  }

  /** A clash makes the lane write, and leaves both rows in the file. */
  lemma ClashIsWritten(rows: seq<Row>, c: Captures) returns (v: Row, u: Row)
    requires Unique(rows) && Samples(rows) && Clash(rows, c)
    ensures Written(rows, c) == RelabelledFile(rows, c)
    ensures v in RelabelledFile(rows, c) && VenueSample(v) && u in RelabelledFile(rows, c) && !OnVenue(u)
    ensures KeyOf(u) == KeyOf(v)
  {
    var i, j :| 0 <= i < |rows| && 0 <= j < |rows| && Clashes(rows, c, i, j);
    NothingLost(rows, c, i);
    NothingLost(rows, c, j);
    CountSees(rows, c, FateOf(rows, c, i), i, |rows|);
    SamplesStay(rows, c);
    u := rows[j];
    v :| v in RelabelledFile(rows, c) && OnVenue(v) && KeyOf(v) == KeyOf(rows[j]);
  }

  /** After a run of the lane over the ledger no further run and merge can put an engine row back over a
      venue row, exactly when no covered row moves onto the stamp of an uncovered one, or none does onto
      one further down and the file is stuck. */
  lemma LawKeptThroughRelabel(rows: seq<Row>, c: Captures)
    requires Unique(rows) && Samples(rows)
    ensures Outlive(Written(rows, c)) <==>
            !Clash(rows, c) || (!ClashBefore(rows, c) && Stuck(RelabelledFile(rows, c)))
  {
    var file := RelabelledFile(rows, c);
    SamplesStay(rows, c);
    if !Clash(rows, c) {
      UniqueAfter(rows, c);
      forall again: Captures, incoming: seq<Row>, r | r in Written(rows, c) && VenueSample(r)
        ensures Filled(r, again.labels) in MergedDict(Written(Written(rows, c), again), incoming).Values
      {
        UniqueOutlives(Written(rows, c), again, incoming, r);
      }
    } else {
      var v, u := ClashIsWritten(rows, c);
      if ClashBefore(rows, c) {
        BeforeLoses(rows, c);
      } else if Stuck(file) {
        forall again: Captures, incoming: seq<Row>, r | r in file && VenueSample(r)
          ensures Filled(r, again.labels) in MergedDict(Written(file, again), incoming).Values
        {
          StuckOutlives(rows, c, again, incoming, r);
        }
      } else {
        var again := UnstuckMoves(file, u);
        SwapLoses(file, again, v, u);
      }
    }
  }

  /** Captures that cover and label nothing leave the lane idle. */
  lemma IdleCaptures(file: seq<Row>)
    ensures Idle(file, Captures([], map[]))
  {
    var idle := Captures([], map[]);
    forall o | o in file
      ensures Quiet(o, idle)
    {
    }
    QuietCounts(file, idle, |file|);
  }

  /** A row moved onto one further down is lost to the next merge, the lane having nothing to do. */
  lemma BeforeLoses(rows: seq<Row>, c: Captures)
    requires Unique(rows) && Samples(rows) && ClashBefore(rows, c)
    ensures !Outlive(RelabelledFile(rows, c))
  {
    var file, idle := RelabelledFile(rows, c), Captures([], map[]);
    var i, j :| 0 <= i < j < |rows| && Clashes(rows, c, i, j);
    var r := ClashWitness(rows, c, i, j);
    SamplesStay(rows, c);
    SortStable(Unsorted(rows, c), r);
    IdleCaptures(file);
    DictHolds(file, r);
    var none := [];
    assert Written(file, idle) == file && Filled(r, idle.labels) == r;
    assert MergedDict(file, none) == DictOf(file);
    assert r !in MergedDict(Written(file, idle), none).Values;
  }

  // -- whole runs --------------------------------------------------------

  datatype Op = Accrue(incoming: seq<Row>) | Correct(captures: Captures)

  ghost predicate Step(rows: seq<Row>, op: Op, next: seq<Row>) {
    match op
    case Accrue(incoming) => Lists(MergedDict(rows, incoming), next)
    case Correct(captures) => next == Written(rows, captures)
  }

  ghost predicate Run(stores: seq<seq<Row>>, ops: seq<Op>) {
    |stores| == |ops| + 1 && forall i :: 0 <= i < |ops| ==> Step(stores[i], ops[i], stores[i + 1])
  }

  /** What may become of a venue row: it stays on its key and its law, and gains at most what it did not
      know. A sample or an entry is the same but for a label it lacked, and a settled one is the same; a
      late entry keeps its law, a fire its law and its label, and its stamps never move later. */
  ghost predicate Follows(r: Row, o: Row) {
    && KeyOf(o) == KeyOf(r) && OnVenue(o)
    && (r.Ledger? || r.Entry? ==> o == Relabelled(r, o.y, o.yNext))
    && (Settled(r) ==> o.y == r.y && (!r.LateFire? ==> o == r))
    && (r.LateEntry? ==> o.law == r.law)
    && (r.LateFire? ==> o.law == r.law && NoLater(r.ff, o.ff) && NoLater(r.ctl, o.ctl) && r.entered <= o.entered)
  }

  /** Some row holds `r`'s key, and every row on it is what became of `r`. */
  ghost predicate Kept(rows: seq<Row>, r: Row) {
    KeyOf(r) in KeysOf(rows) && forall o :: o in rows && KeyOf(o) == KeyOf(r) ==> Follows(r, o)
  }

  lemma FollowsImproved(r: Row, o: Row, now: Row)
    requires Follows(r, o) && Improves(o, now) && OnVenue(r)
    ensures Follows(r, now)
  {
  }

  lemma FollowsFilled(r: Row, o: Row, labels: Labels)
    requires Follows(r, o) && OnVenue(r)
    ensures Follows(r, Filled(o, labels))
  {
  }

  lemma MergeKeeps(rows: seq<Row>, incoming: seq<Row>, next: seq<Row>, r: Row)
    requires Lists(MergedDict(rows, incoming), next) && OnVenue(r) && Kept(rows, r)
    ensures Kept(next, r)
  {
    var k := KeyOf(r);
    DictKeys(rows);
    DictIsRows(rows);
    assert k in DictOf(rows) && DictOf(rows)[k] in rows;
    MergeImproves(DictOf(rows), incoming, |incoming|, k);
    var now := MergedDict(rows, incoming)[k];
    FollowsImproved(r, DictOf(rows)[k], now);
    assert now in next;
  }

  lemma CorrectKeeps(rows: seq<Row>, c: Captures, r: Row)
    requires OnVenue(r) && Kept(rows, r)
    ensures Kept(RelabelledFile(rows, c), r)
  {
    var k, file := KeyOf(r), RelabelledFile(rows, c);
    var i :| 0 <= i < |rows| && KeyOf(rows[i]) == k;
    assert rows[i] in rows;
    VenueRowStays(rows, c, rows[i]);
    KeyIsThere(file, Filled(rows[i], c.labels));
    forall o | o in file && KeyOf(o) == k
      ensures Follows(r, o)
    {
      OnlyVenueImages(rows, c, rows[i], o);
      var x :| x in rows && KeyOf(x) == k && o == Filled(x, c.labels);
      FollowsFilled(r, x, c.labels);
    }
  }

  /** On the key of a venue row that captures leave no engine row on, a relabel leaves that key's venue
      rows, filled, and nothing else: a row moving there collides. */
  lemma OnlyVenueImages(rows: seq<Row>, c: Captures, v: Row, o: Row)
    requires v in rows && OnVenue(v)
    requires forall x :: x in rows && KeyOf(x) == KeyOf(v) ==> OnVenue(x) || Covered(x, c)
    requires o in RelabelledFile(rows, c) && KeyOf(o) == KeyOf(v)
    ensures exists x :: x in rows && OnVenue(x) && KeyOf(x) == KeyOf(v) && o == Filled(x, c.labels)
  {
    var j :| 0 <= j < |rows| && rows[j] == v;
    assert KeyOf(v) in VenueKeys(rows);
    FileIsImages(rows, c, o);
    var i :| 0 <= i < |rows| && Image(rows, c, i) == Some(o);
    assert Opened(Seal);
    assert rows[i] in rows;
  }

  /** Over any run of accruals and relabels, with whatever captures, a venue row that is alone on its key
      stays there: its stamp is never moved again, its law never changes, and a label once known is known
      for good. */
  lemma {:induction false} VenueForever(stores: seq<seq<Row>>, ops: seq<Op>, r: Row, n: nat)
    requires Run(stores, ops) && OnVenue(r) && Kept(stores[0], r) && n < |stores|
    ensures Kept(stores[n], r)
  {
    if n > 0 {
      VenueForever(stores, ops, r, n - 1);
      assert Step(stores[n - 1], ops[n - 1], stores[n]);
      StepKeeps(stores[n - 1], ops[n - 1], stores[n], r);
    }
  }

  lemma StepKeeps(rows: seq<Row>, op: Op, next: seq<Row>, r: Row)
    requires Step(rows, op, next) && OnVenue(r) && Kept(rows, r)
    ensures Kept(next, r)
  {
    match op {
      case Accrue(incoming) => MergeKeeps(rows, incoming, next, r);
      case Correct(captures) => CorrectKeeps(rows, captures, r);
    }
  }

  /** In a store with one row per key every row is alone on its key. */
  lemma UniqueKept(rows: seq<Row>, r: Row)
    requires Unique(rows) && r in rows && OnVenue(r)
    ensures Kept(rows, r)
  {
    KeyIsThere(rows, r);
    forall o | o in rows && KeyOf(o) == KeyOf(r)
      ensures o == r
    {
      SameKeySame(rows, o, r);
    }
  }

  /** After a relabel in which no covered row moves onto an uncovered one, whatever accruals and relabels
      follow, every venue row of the file stays. */
  lemma LawForever(rows: seq<Row>, c: Captures, stores: seq<seq<Row>>, ops: seq<Op>, r: Row, n: nat)
    requires Unique(rows) && !Clash(rows, c) && Run(stores, ops) && stores[0] == RelabelledFile(rows, c)
    requires r in stores[0] && OnVenue(r) && n < |stores|
    ensures Kept(stores[n], r)
  {
    UniqueAfter(rows, c);
    UniqueKept(stores[0], r);
    VenueForever(stores, ops, r, n);
  }

  // -- exactly when the law is kept over whole runs ----------------------

  /** The store still has what became of `r`. */
  ghost predicate Present(rows: seq<Row>, r: Row) { exists o :: o in rows && Follows(r, o) }

  /** Every venue row of the file is present at every point of every run of accruals and relabels. */
  ghost predicate Survives(file: seq<Row>) {
    forall stores: seq<seq<Row>>, ops: seq<Op>, r, n: nat ::
      Run(stores, ops) && stores[0] == file && r in file && VenueSample(r) && n < |stores| ==> Present(stores[n], r)
  }

  lemma KeptIsPresent(rows: seq<Row>, r: Row)
    requires Kept(rows, r)
    ensures Present(rows, r)
  {
    var i :| 0 <= i < |rows| && KeyOf(rows[i]) == KeyOf(r);
    assert rows[i] in rows;
  }

  /** A stuck file stays as it is until the first merge or the first write, and then every venue row of
      it is alone on its key. */
  lemma {:induction false} StuckRun(rows: seq<Row>, c: Captures, stores: seq<seq<Row>>, ops: seq<Op>, r: Row, n: nat)
    requires Unique(rows) && Samples(rows) && !ClashBefore(rows, c) && Stuck(RelabelledFile(rows, c))
    requires Run(stores, ops) && stores[0] == RelabelledFile(rows, c) && n < |stores|
    requires r in RelabelledFile(rows, c) && VenueSample(r)
    ensures stores[n] == RelabelledFile(rows, c) || Kept(stores[n], r)
  {
    if n > 0 {
      StuckRun(rows, c, stores, ops, r, n - 1);
      assert Step(stores[n - 1], ops[n - 1], stores[n]);
      if Kept(stores[n - 1], r) {
        StepKeeps(stores[n - 1], ops[n - 1], stores[n], r);
      } else {
        StuckStep(rows, c, ops[n - 1], stores[n], r);
      }
    }
  }

  lemma StuckStep(rows: seq<Row>, c: Captures, op: Op, next: seq<Row>, r: Row)
    requires Unique(rows) && Samples(rows) && !ClashBefore(rows, c) && Stuck(RelabelledFile(rows, c))
    requires r in RelabelledFile(rows, c) && VenueSample(r) && Step(RelabelledFile(rows, c), op, next)
    ensures next == RelabelledFile(rows, c) || Kept(next, r)
  {
    match op {
      case Accrue(incoming) =>
        VenueHasLastWord(rows, c, r);
        MergeSettles(RelabelledFile(rows, c), incoming, next, r);
      case Correct(captures) =>
        if !Idle(RelabelledFile(rows, c), captures) {
          StuckSettles(rows, c, captures, r);
        }
    }
  }

  lemma MergeSettles(file: seq<Row>, incoming: seq<Row>, next: seq<Row>, r: Row)
    requires VenueSample(r) && LastWord(file, r) && Lists(MergedDict(file, incoming), next)
    ensures Kept(next, r)
  {
    DictHolds(file, r);
    MergeImproves(DictOf(file), incoming, |incoming|, KeyOf(r));
    assert MergedDict(file, incoming)[KeyOf(r)] == r;
    assert r in next;
    KeyIsThere(next, r);
  }

  lemma StuckSettles(rows: seq<Row>, c: Captures, again: Captures, r: Row)
    requires Unique(rows) && Samples(rows) && Stuck(RelabelledFile(rows, c))
    requires r in RelabelledFile(rows, c) && VenueSample(r) && !Idle(RelabelledFile(rows, c), again)
    ensures Kept(RelabelledFile(RelabelledFile(rows, c), again), r)
  {
    var file := RelabelledFile(rows, c);
    StuckFillsNone(file, again.labels, |file|);
    VenueRowStays(file, again, r);
    KeyIsThere(RelabelledFile(file, again), Filled(r, again.labels));
    forall o | o in file && KeyOf(o) == KeyOf(r)
      ensures o == r || Covered(o, again)
    {
      if OnVenue(o) {
        VenueRowsDiffer(rows, c, o, r);
      } else {
        StuckIsCovered(file, again, |file|, o);
      }
    }
    forall o | o in RelabelledFile(file, again) && KeyOf(o) == KeyOf(r)
      ensures Follows(r, o)
    {
      OnlyVenueImages(file, again, r, o);
      FollowsFilled(r, r, again.labels);
    }
  }

  /** After a swap the dict holds an engine row on the key. */
  lemma SwapHandsOver(rows: seq<Row>, c: Captures, again: Captures, v: Row, u: Row)
    requires Unique(rows) && Samples(rows)
    requires v in RelabelledFile(rows, c) && VenueSample(v) && u in RelabelledFile(rows, c)
    requires Uncovered(u, again) && KeyOf(u) == KeyOf(v)
    ensures var d := DictOf(RelabelledFile(RelabelledFile(rows, c), again));
            KeyOf(v) in d && !OnVenue(d[KeyOf(v)])
  {
    var file := RelabelledFile(rows, c);
    var next, w := RelabelledFile(file, again), Filled(v, again.labels);
    SamplesStay(rows, c);
    RelabelSwaps(file, again, v, u);
    DictIsRows(next);
    DictHolds(next, w);
    var o := DictOf(next)[KeyOf(v)];
    if OnVenue(o) {
      VenueImageIs(file, again, v, o);
      var x :| x in file && OnVenue(x) && KeyOf(x) == KeyOf(v) && o == Filled(x, again.labels);
      VenueRowsDiffer(rows, c, x, v);
    }
  }

  /** A venue row on the key of a venue row is the image of one. */
  lemma VenueImageIs(file: seq<Row>, c: Captures, v: Row, o: Row)
    requires v in file && OnVenue(v) && o in RelabelledFile(file, c) && OnVenue(o) && KeyOf(o) == KeyOf(v)
    ensures exists x :: x in file && OnVenue(x) && KeyOf(x) == KeyOf(v) && o == Filled(x, c.labels)
  {
    var j :| 0 <= j < |file| && file[j] == v;
    assert KeyOf(v) in VenueKeys(file);
    FileIsImages(file, c, o);
    var i :| 0 <= i < |file| && Image(file, c, i) == Some(o);
    assert Opened(Seal);
    assert file[i] in file;
  }

  /** Once the dict has an engine row on the key, a merge leaves nothing of the venue row. */
  lemma HandedOver(file: seq<Row>, again: Captures, v: Row)
    requires v in file && VenueSample(v)
    requires var d := DictOf(Written(file, again)); KeyOf(v) in d && !OnVenue(d[KeyOf(v)])
    ensures !Survives(file)
  {
    var written := Written(file, again);
    var next := Listing(MergedDict(written, []));
    var stores, ops := [file, written, next], [Correct(again), Accrue([])];
    assert MergedDict(written, []) == DictOf(written);
    assert Run(stores, ops) by {
      assert Step(file, ops[0], written) && Step(written, ops[1], next);
    }
    assert !Present(next, v);
    assert stores[0] == file && stores[2] == next;
  }

  /** Over every run of accruals and relabels that follows, every venue row of the file the lane leaves
      stays on its key, its stamp and its law, exactly when no covered row moves onto the stamp of an
      uncovered one, or none does onto one further down and the file is stuck. */
  lemma LawKeptOverRuns(rows: seq<Row>, c: Captures)
    requires Unique(rows) && Samples(rows)
    ensures Survives(Written(rows, c)) <==>
            !Clash(rows, c) || (!ClashBefore(rows, c) && Stuck(RelabelledFile(rows, c)))
  {
    if !Clash(rows, c) {
      UniqueSurvives(rows, c);
    } else {
      var v, u := ClashIsWritten(rows, c);
      if ClashBefore(rows, c) {
        BeforeHandsOver(rows, c);
      } else if Stuck(RelabelledFile(rows, c)) {
        StuckSurvives(rows, c);
      } else {
        SamplesStay(rows, c);
        var again := UnstuckMoves(RelabelledFile(rows, c), u);
        SwapHandsOver(rows, c, again, v, u);
        HandedOver(RelabelledFile(rows, c), again, v);
      }
    }
  }

  lemma UniqueSurvives(rows: seq<Row>, c: Captures)
    requires Unique(rows) && !Clash(rows, c)
    ensures Survives(Written(rows, c))
  {
    var file := Written(rows, c);
    UniqueAfter(rows, c);
    forall stores: seq<seq<Row>>, ops: seq<Op>, r, n: nat
      | Run(stores, ops) && stores[0] == file && r in file && VenueSample(r) && n < |stores|
      ensures Present(stores[n], r)
    {
      UniqueKept(file, r);
      VenueForever(stores, ops, r, n);
      KeptIsPresent(stores[n], r);
    }
  }

  lemma StuckSurvives(rows: seq<Row>, c: Captures)
    requires Unique(rows) && Samples(rows) && !ClashBefore(rows, c) && Stuck(RelabelledFile(rows, c))
    ensures Survives(RelabelledFile(rows, c))
  {
    var file := RelabelledFile(rows, c);
    forall stores: seq<seq<Row>>, ops: seq<Op>, r, n: nat
      | Run(stores, ops) && stores[0] == file && r in file && VenueSample(r) && n < |stores|
      ensures Present(stores[n], r)
    {
      StuckRun(rows, c, stores, ops, r, n);
      if Kept(stores[n], r) {
        KeptIsPresent(stores[n], r);
      } else {
        assert Follows(r, r);
      }
    }
  }

  /** A row moved onto one further down is handed over at once, the lane being idle. */
  lemma BeforeHandsOver(rows: seq<Row>, c: Captures)
    requires Unique(rows) && Samples(rows) && ClashBefore(rows, c)
    ensures !Survives(RelabelledFile(rows, c))
  {
    var file, idle := RelabelledFile(rows, c), Captures([], map[]);
    var i, j :| 0 <= i < j < |rows| && Clashes(rows, c, i, j);
    var r := ClashWitness(rows, c, i, j);
    SamplesStay(rows, c);
    SortStable(Unsorted(rows, c), r);
    IdleCaptures(file);
    DictIsRows(file);
    DictHolds(file, r);
    var o := DictOf(file)[KeyOf(r)];
    if OnVenue(o) {
      VenueRowsDiffer(rows, c, o, r);
    }
    HandedOver(file, idle, r);
  }

  lemma {:induction false} CountSees(rows: seq<Row>, c: Captures, f: Fate, i: nat, n: nat)
    requires i < n <= |rows| && FateOf(rows, c, i) == f
    ensures CountFate(rows, c, f, n) > 0
  {
    if i < n - 1 {
      CountSees(rows, c, f, i, n - 1);
    }
  }

  /** Without it: a row corrected to the venue's label goes back to the engine's at the next accrual. */
  lemma ClashReverts(rows: seq<Row>, c: Captures, i: nat, j: nat, next: seq<Row>) returns (p: nat)
    requires Unique(rows) && Samples(rows) && i < j < |rows| && Clashes(rows, c, i, j)
    requires Lists(MergedDict(Written(rows, c), []), next)
    ensures p < |rows| && Covered(rows[p], c)
    ensures Moved(rows[p], c) in Written(rows, c) && Moved(rows[p], c) !in next
  {
    p := ConvertedLoser(rows, c, i, j);
    LostToMerge(Written(rows, c), next, Moved(rows[p], c));
  }

  /** Of the rows moving onto an uncovered one further down, the one converted is in the file, and not
      the last on its key. */
  lemma ConvertedLoser(rows: seq<Row>, c: Captures, i: nat, j: nat) returns (p: nat)
    requires Unique(rows) && Samples(rows) && i < j < |rows| && Clashes(rows, c, i, j)
    ensures p < |rows| && Covered(rows[p], c) && Moved(rows[p], c) in Written(rows, c)
    ensures !LastWord(Written(rows, c), Moved(rows[p], c))
  {
    EngineKeyIsFree(rows, j);
    p := FirstMover(rows, c, i, KeyOf(rows[j]));
    ConvertedIsWritten(rows, c, p);
    ClashLoses(rows, c, p, j, |rows|);
    FileLoses(rows, c, Moved(rows[p], c));
  }

  lemma EngineKeyIsFree(rows: seq<Row>, j: nat)
    requires Unique(rows) && j < |rows| && !OnVenue(rows[j])
    ensures KeyOf(rows[j]) !in VenueKeys(rows)
  {
    forall v | 0 <= v < |rows| && OnVenue(rows[v])
      ensures KeyOf(rows[v]) != KeyOf(rows[j])
    {
      assert v < j || j < v;
    }
  }

  /** A conversion makes the lane write, and is in what it writes. */
  lemma ConvertedIsWritten(rows: seq<Row>, c: Captures, p: nat)
    requires p < |rows| && FateOf(rows, c, p) == Converted
    ensures Written(rows, c) == RelabelledFile(rows, c) && Moved(rows[p], c) in RelabelledFile(rows, c)
  {
    assert Image(rows, c, p) == Some(Moved(rows[p], c));
    NothingLost(rows, c, p);
    CountSees(rows, c, Converted, p, |rows|);
  }

  lemma FileLoses(rows: seq<Row>, c: Captures, r: Row)
    requires Samples(rows) && !LastWord(SoFar(rows, c, |rows|), r)
    ensures !LastWord(RelabelledFile(rows, c), r)
  {
    assert SoFar(rows, c, |rows|) == Unsorted(rows, c);
    SamplesStay(rows, c);
    SortStable(Unsorted(rows, c), r);
  }

  lemma LostToMerge(file: seq<Row>, next: seq<Row>, r: Row)
    requires Lists(MergedDict(file, []), next) && !LastWord(file, r)
    ensures r !in next
  {
    DictHolds(file, r);
  }

  /** Such a ledger: two engine samples ten nanoseconds apart, the earlier covered by a capture that
      runs ten nanoseconds late, the later by none. */
  lemma LawReverted(next: seq<Row>)
    ensures var sample := Sample(0, 0, 0, 0, 0, 0);
            var a := Ledger(0, 0, 7, sample, 0, Y_UNKNOWN, Y_UNKNOWN, false);
            var c := Captures([Tape(0, 0, 0, 0, 10)], map[7 := Label(1_000_000, Y_UNKNOWN)]);
            var rows := [a, Ledger(10, 0, 7, sample, 0, Y_UNKNOWN, Y_UNKNOWN, false)];
            var v := Ledger(10, 0, 7, sample, 1_000_000, 0, Y_UNKNOWN, true);
            Lists(MergedDict(Written(rows, c), []), next) ==> v in Written(rows, c) && v !in next
  {
    var sample := Sample(0, 0, 0, 0, 0, 0);
    var a := Ledger(0, 0, 7, sample, 0, Y_UNKNOWN, Y_UNKNOWN, false);
    var c := Captures([Tape(0, 0, 0, 0, 10)], map[7 := Label(1_000_000, Y_UNKNOWN)]);
    var rows := [a, Ledger(10, 0, 7, sample, 0, Y_UNKNOWN, Y_UNKNOWN, false)];
    assert Covers(c.tapes[0], 0) && !Covers(c.tapes[0], 10) && c.tapes[1..] == [];
    assert Covering(c.tapes, 0) == Some(c.tapes[0]) && Covering(c.tapes, 10) == None;
    if Lists(MergedDict(Written(rows, c), []), next) {
      var p := ClashReverts(rows, c, 0, 1, next);
    }
  }

  // -- a ledger the first relabel and a merge leave alone ----------------

  const SAMPLE := Sample(0, 0, 0, 0, 0, 0)

  function EngineAt(ts: int): Row { Ledger(ts, 0, 7, SAMPLE, 0, Y_UNKNOWN, Y_UNKNOWN, false) }

  function VenueAt(ts: int): Row { Ledger(ts, 0, 7, SAMPLE, 1_000_000, 0, Y_UNKNOWN, true) }

  /** Captures that cover the one stamp `ts` and move it by `delta`. */
  function CapturesAt(ts: int, delta: int): Captures {
    Captures([Tape(0, 0, ts, ts, delta)], map[7 := Label(1_000_000, Y_UNKNOWN)])
  }

  lemma CoversOne(ts: int, delta: int, t: int)
    ensures Covering(CapturesAt(ts, delta).tapes, t) == if t == ts then Some(Tape(0, 0, ts, ts, delta)) else None
  {
    var c := CapturesAt(ts, delta);
    assert c.tapes[1..] == [];
    assert Covering(c.tapes[1..], t) == None;
  }

  lemma SortsThree(a: Row, b: Row, c: Row)
    requires RowLe(a, b) && RowLe(b, c)
    ensures Sort(RowLe, [a, b, c]) == [a, b, c]
  {
    assert [a, b, c][1..] == [b, c] && [b, c][1..] == [c] && [c][1..] == [];
    assert Sort(RowLe, [c]) == [c];
    assert Sort(RowLe, [b, c]) == [b, c];
  }

  const THREE := [EngineAt(10), EngineAt(20), EngineAt(100)]
  const SWAPPED := [EngineAt(10), VenueAt(10), EngineAt(100)]

  /** Of three engine rows only the middle one is covered, and moves onto the first. */
  lemma FirstRelabel()
    ensures RelabelledFile(THREE, CapturesAt(20, -10)) == SWAPPED
    ensures FateOf(THREE, CapturesAt(20, -10), 1) == Converted
  {
    var c := CapturesAt(20, -10);
    CoversOne(20, -10, 10);
    CoversOne(20, -10, 20);
    CoversOne(20, -10, 100);
    assert Opened(Seal);
    assert FateOf(THREE, c, 0) == Unreached && FateOf(THREE, c, 1) == Converted && FateOf(THREE, c, 2) == Unreached;
    assert EngineRows(THREE, c, 0) == [];
    assert EngineRows(THREE, c, 1) == [EngineAt(10)];
    assert EngineRows(THREE, c, 2) == [EngineAt(10), VenueAt(10)];
    assert EngineRows(THREE, c, 3) == SWAPPED;
    assert VenueRows(THREE, c.labels, 0) == VenueRows(THREE, c.labels, 1) == VenueRows(THREE, c.labels, 2) == [];
    assert Unsorted(THREE, c) == SWAPPED;
    SortsThree(EngineAt(10), VenueAt(10), EngineAt(100));
  }

  lemma FirstCaptures()
    ensures Unique(THREE) && Samples(THREE) && !ClashBefore(THREE, CapturesAt(20, -10))
    ensures Written(THREE, CapturesAt(20, -10)) == SWAPPED
  {
    CoversOne(20, -10, 10);
    CoversOne(20, -10, 20);
    CoversOne(20, -10, 100);
    FirstRelabel();
    CountSees(THREE, CapturesAt(20, -10), Converted, 1, 3);
  }

  lemma SecondCaptures()
    ensures !Clash(SWAPPED, CapturesAt(100, 0)) && Uncovered(EngineAt(10), CapturesAt(100, 0))
    ensures Written(SWAPPED, CapturesAt(100, 0)) == RelabelledFile(SWAPPED, CapturesAt(100, 0))
  {
    CoversOne(100, 0, 10);
    CoversOne(100, 0, 100);
    assert FateOf(SWAPPED, CapturesAt(100, 0), 2) == Converted by {
      assert Opened(Seal);
    }
    CountSees(SWAPPED, CapturesAt(100, 0), Converted, 2, 3);
  }

  /** Such a ledger: engine samples at 10, 20 and 100, the first captures moving 20 back onto 10, the
      second confirming 100. A merge after the first relabel keeps the venue row at 10; a merge after
      both puts the engine's back. */
  lemma SecondRelabelReverts(next: seq<Row>)
    ensures var first, second := CapturesAt(20, -10), CapturesAt(100, 0);
            var file := Written(THREE, first);
            && Unique(THREE) && Samples(THREE) && !ClashBefore(THREE, first) && !Clash(file, second)
            && VenueAt(10) in file && VenueAt(10) in Written(file, second)
            && (Lists(MergedDict(Written(file, second), []), next) ==> VenueAt(10) !in next)
  {
    var second := CapturesAt(100, 0);
    FirstCaptures();
    SecondCaptures();
    RelabelSwaps(SWAPPED, second, VenueAt(10), EngineAt(10));
    if Lists(MergedDict(Written(SWAPPED, second), []), next) {
      LostToMerge(Written(SWAPPED, second), next, VenueAt(10));
    }
  }
}
