/** The relabel: engine rows a capture covers move onto the venue's law and clock, once. */
module Relabel {
  import opened Options
  import opened Fixed
  import opened Sealing
  import opened Sorting
  import opened Evidence

  const SEC := 1_000_000_000

  // -- captures ----------------------------------------------------------

  datatype Tape = Tape(epoch: int, anchor: int, first: int, last: int, off: int)

  /** Whether the anchor law put `ts` within the run. */
  predicate Covers(t: Tape, ts: int) {
    t.epoch + (t.first - t.anchor) <= ts <= t.epoch + (t.last - t.anchor)
  }

  function Delta(t: Tape): int { t.off - (t.epoch - t.anchor) }

  function Covering(tapes: seq<Tape>, ts: int): Option<Tape> {
    if tapes == [] then None else if Covers(tapes[0], ts) then Some(tapes[0]) else Covering(tapes[1..], ts)
  }

  /** The first tape that covers the stamp. */
  ghost predicate IsFirst(tapes: seq<Tape>, ts: int, i: nat) {
    i < |tapes| && Covers(tapes[i], ts) && forall j :: 0 <= j < i ==> !Covers(tapes[j], ts)
  }

  /** The tape found is the first that covers the stamp, and there is one exactly when some tape does. */
  lemma {:induction false} CoveringLaw(tapes: seq<Tape>, ts: int)
    ensures var t := Covering(tapes, ts);
            && (t.Some? ==> t.value in tapes && exists i: nat :: IsFirst(tapes, ts, i) && tapes[i] == t.value)
            && (t.None? <==> forall x :: x in tapes ==> !Covers(x, ts))
  {
    if tapes == [] {
    } else if Covers(tapes[0], ts) {
      assert IsFirst(tapes, ts, 0);
    } else {
      CoveringLaw(tapes[1..], ts);
      assert tapes == [tapes[0]] + tapes[1..];
      var t := Covering(tapes[1..], ts);
      if t.Some? {
        var i: nat :| IsFirst(tapes[1..], ts, i) && tapes[1..][i] == t.value;
        assert IsFirst(tapes, ts, i + 1) by {
          assert forall j :: 0 < j < |tapes| ==> tapes[j] == tapes[1..][j - 1];
        }
      }
    }
  }

  datatype Label = Label(y: int, yNext: int)

  type Labels = map<int, Label>

  datatype Captures = Captures(tapes: seq<Tape>, labels: Labels)

  function LabelOf(labels: Labels, outcome: int): Label {
    if outcome in labels then labels[outcome] else Label(Y_UNKNOWN, Y_UNKNOWN)
  }

  // -- one row -----------------------------------------------------------

  predicate Fills(r: Row, labels: Labels) {
    !Settled(r) && r.outcome in labels && labels[r.outcome].y != Y_UNKNOWN
  }

  function Relabelled(r: Row, y: int, yNext: int): Row {
    if r.Ledger? then Ledger(r.ts, r.family, r.outcome, r.sample, y, r.yEngine, yNext, r.venue)
    else if r.Entry? then
      Entry(r.ts, r.outcome, r.origin, r.start, r.offset, r.trade, y, r.yEngine, yNext, r.venue)
    else if r.LateEntry? then LateEntry(r.ts, r.outcome, r.origin, r.trade, y, yNext, r.law)
    else LateFire(r.outcome, r.family, r.expiry, r.ff, r.ctl, r.entered, y, yNext, r.law)
  }

  /** An unknown label takes the captures'; a known one is left alone. */
  function Filled(r: Row, labels: Labels): Row {
    if Fills(r, labels) then
      var lab := labels[r.outcome];
      Relabelled(r, lab.y, if lab.yNext == Y_UNKNOWN then r.yNext else lab.yNext)
    else r
  }

  predicate Covered(r: Row, c: Captures) { !OnVenue(r) && Covering(c.tapes, r.ts).Some? }

  predicate Uncovered(r: Row, c: Captures) { !OnVenue(r) && Covering(c.tapes, r.ts).None? }

  /** An engine row on the venue's law and clock. */
  function Moved(r: Row, c: Captures): Row
    requires Covered(r, c)
  {
    var ts := r.ts + Delta(Covering(c.tapes, r.ts).value);
    var lab := LabelOf(c.labels, r.outcome);
    if r.Ledger? then Ledger(ts, r.family, r.outcome, r.sample, lab.y, r.y, lab.yNext, true)
    else Entry(ts, r.outcome, r.origin, r.start, Max(ts - r.start, 0) / SEC, r.trade, lab.y, r.y, lab.yNext, true)
  }

  /** `n` is the whole seconds of `d`, 0 when that is negative. */
  ghost predicate WholeSeconds(n: int, d: int) {
    if d < 0 then n == 0 else n * SEC <= d < (n + 1) * SEC
  }

  /** `o` is the engine row `r` at venue time `ts`: the same sample or trade, the captures' label or an
      unknown one, the engine's own kept beside it, and an entry's offset counted from its start. */
  ghost predicate AtVenueTime(o: Row, r: Row, ts: int, labels: Labels)
    requires !OnVenue(r)
  {
    && (o.Ledger? || o.Entry?) && (o.Ledger? <==> r.Ledger?)
    && o.ts == ts && o.venue && o.outcome == r.outcome && o.yEngine == r.y
    && (if r.outcome in labels then o.y == labels[r.outcome].y && o.yNext == labels[r.outcome].yNext
        else o.y == o.yNext == Y_UNKNOWN)
    && (r.Ledger? ==> o.family == r.family && o.sample == r.sample)
    && (r.Entry? ==> o.origin == r.origin && o.start == r.start && o.trade == r.trade
                     && WholeSeconds(o.offset, ts - r.start))
  }

  /** The clock law. The anchor law stamped a record at tape time `x` with `epoch + (x - anchor)`. The
      tape covers that stamp exactly when the record lies within the tape's; and when it is the tape
      found, the row goes to the record's venue time, `x + off`. */
  lemma ClockLaw(r: Row, c: Captures, t: Tape, x: int)
    requires !OnVenue(r) && r.ts == t.epoch + (x - t.anchor)
    ensures Covers(t, r.ts) <==> t.first <= x <= t.last
    ensures Covering(c.tapes, r.ts) == Some(t) ==>
              t.first <= x <= t.last && AtVenueTime(Moved(r, c), r, x + t.off, c.labels)
  {
    CoveringLaw(c.tapes, r.ts);
  }

  /** What a fill changes: an unknown label becomes the captures' known one, and the next strike's label
      with it unless theirs is unknown. */
  lemma FilledLabels(r: Row, labels: Labels)
    ensures var o := Filled(r, labels);
            && KeyOf(o) == KeyOf(r) && (OnVenue(o) <==> OnVenue(r))
            && (Settled(r) || r.outcome !in labels || labels[r.outcome].y == Y_UNKNOWN ==> o == r)
            && (!Settled(r) && r.outcome in labels && labels[r.outcome].y != Y_UNKNOWN ==>
                  && Settled(o) && o.y == labels[r.outcome].y && Relabelled(o, r.y, r.yNext) == r
                  && o.yNext == (if labels[r.outcome].yNext == Y_UNKNOWN then r.yNext else labels[r.outcome].yNext))
  {
  }

  // -- the file ----------------------------------------------------------

  /** The key a covered row moves to is held already: by a venue row, or by an earlier covered one. */
  ghost predicate Taken(rows: seq<Row>, c: Captures, i: nat)
    requires i < |rows| && Covered(rows[i], c)
  {
    forall x: Seal {:trigger Opened(x)} :: KeyOf(Moved(rows[i], c)) in VenueKeys(rows) + MovedKeys(rows, c, i)
  }

  ghost function VenueKeys(rows: seq<Row>): set<Key> {
    set i | 0 <= i < |rows| && OnVenue(rows[i]) :: KeyOf(rows[i])
  }

  ghost function MovedKeys(rows: seq<Row>, c: Captures, n: nat): set<Key>
    requires n <= |rows|
  {
    set i | 0 <= i < n && Covered(rows[i], c) :: KeyOf(Moved(rows[i], c))
  }

  datatype Fate = Already | Unreached | Collided | Converted

  ghost function FateOf(rows: seq<Row>, c: Captures, i: nat): Fate
    requires i < |rows|
  {
    if OnVenue(rows[i]) then Already
    else if Uncovered(rows[i], c) then Unreached
    else if Taken(rows, c, i) then Collided
    else Converted
  }

  ghost function CountFate(rows: seq<Row>, c: Captures, f: Fate, n: nat): nat
    requires n <= |rows|
  {
    if n == 0 then 0 else CountFate(rows, c, f, n - 1) + if FateOf(rows, c, n - 1) == f then 1 else 0
  }

  ghost function CountFills(rows: seq<Row>, labels: Labels, n: nat): nat
    requires n <= |rows|
  {
    if n == 0 then 0
    else CountFills(rows, labels, n - 1) + if OnVenue(rows[n - 1]) && Fills(rows[n - 1], labels) then 1 else 0
  }

  /** The venue rows of the first `n`, filled. */
  function VenueRows(rows: seq<Row>, labels: Labels, n: nat): seq<Row>
    requires n <= |rows|
  {
    if n == 0 then []
    else VenueRows(rows, labels, n - 1) + if OnVenue(rows[n - 1]) then [Filled(rows[n - 1], labels)] else []
  }

  /** What becomes of the engine rows of the first `n`. */
  ghost function EngineRows(rows: seq<Row>, c: Captures, n: nat): seq<Row>
    requires n <= |rows|
  {
    if n == 0 then []
    else EngineRows(rows, c, n - 1) + EngineRow(rows, c, n - 1)
  }

  ghost function EngineRow(rows: seq<Row>, c: Captures, i: nat): seq<Row>
    requires i < |rows|
  {
    match FateOf(rows, c, i)
    case Unreached => [rows[i]]
    case Converted => [Moved(rows[i], c)]
    case _ => []
  }

  ghost function Unsorted(rows: seq<Row>, c: Captures): seq<Row> {
    VenueRows(rows, c.labels, |rows|) + EngineRows(rows, c, |rows|)
  }

  ghost function RelabelledFile(rows: seq<Row>, c: Captures): seq<Row> { Sort(RowLe, Unsorted(rows, c)) }

  datatype Count = Count(rows: nat, converted: nat, already: nat, uncovered: nat, collided: nat, filled: nat)

  ghost predicate Counts(k: Count, rows: seq<Row>, c: Captures, n: nat)
    requires n <= |rows|
  {
    && k.converted == CountFate(rows, c, Converted, n) && k.uncovered == CountFate(rows, c, Unreached, n)
    && k.collided == CountFate(rows, c, Collided, n) && k.already == CountFate(rows, c, Already, n)
    && k.filled == CountFills(rows, c.labels, n)
  }

  method FillVenue(rows: seq<Row>, c: Captures) returns (out: seq<Row>, keys: set<Key>, filled: nat)
    ensures out == VenueRows(rows, c.labels, |rows|) && filled == CountFills(rows, c.labels, |rows|)
    ensures keys == VenueKeys(rows) && |out| == CountFate(rows, c, Already, |rows|)
  {
    out, keys, filled := [], {}, 0;
    for i := 0 to |rows|
      invariant out == VenueRows(rows, c.labels, i) && filled == CountFills(rows, c.labels, i)
      invariant keys == VenueKeys(rows[..i]) && |out| == CountFate(rows, c, Already, i)
    {
      VenueKeysSnoc(rows, i);
      if OnVenue(rows[i]) {
        if Fills(rows[i], c.labels) {
          filled := filled + 1;
        }
        out := out + [Filled(rows[i], c.labels)];
        keys := keys + {KeyOf(rows[i])};
      }
    }
    assert rows[..|rows|] == rows;
  }

  lemma VenueKeysSnoc(rows: seq<Row>, n: nat)
    requires n < |rows|
    ensures VenueKeys(rows[..n + 1]) == VenueKeys(rows[..n]) + if OnVenue(rows[n]) then {KeyOf(rows[n])} else {}
  {
    var a, b := rows[..n + 1], rows[..n];
    forall k
      ensures k in VenueKeys(a) <==> k in VenueKeys(b) + if OnVenue(rows[n]) then {KeyOf(rows[n])} else {}
    {
      if k in VenueKeys(b) {
        var i :| 0 <= i < |b| && OnVenue(b[i]) && KeyOf(b[i]) == k;
        assert a[i] == b[i];
      }
      if k in VenueKeys(a) {
        var i :| 0 <= i < |a| && OnVenue(a[i]) && KeyOf(a[i]) == k;
        if i < n {
          assert b[i] == a[i];
        }
      }
      assert a[n] == rows[n];
    }
  }

  lemma MovedKeysStep(rows: seq<Row>, c: Captures, n: nat)
    requires n < |rows|
    ensures MovedKeys(rows, c, n + 1)
            == MovedKeys(rows, c, n) + if Covered(rows[n], c) then {KeyOf(Moved(rows[n], c))} else {}
  {
  }

  /** One row of the relabel's loop, against the keys held so far. */
  method RelabelRow(rows: seq<Row>, c: Captures, i: nat, keys: set<Key>)
    returns (fate: Fate, more: seq<Row>, held: set<Key>)
    requires i < |rows| && keys == VenueKeys(rows) + MovedKeys(rows, c, i)
    ensures fate == FateOf(rows, c, i) && more == EngineRow(rows, c, i)
    ensures |more| == if fate in {Unreached, Converted} then 1 else 0
    ensures held == VenueKeys(rows) + MovedKeys(rows, c, i + 1)
  {
    assert Opened(Seal);
    MovedKeysStep(rows, c, i);
    var r := rows[i];
    if OnVenue(r) {
      return Already, [], keys;
    }
    if Covering(c.tapes, r.ts).None? {
      return Unreached, [r], keys;
    }
    var moved := Moved(r, c);
    if KeyOf(moved) in keys {
      return Collided, [], keys;
    }
    return Converted, [moved], keys + {KeyOf(moved)};
  }

  /** The relabel's loop over the engine rows, with its counters. */
  method MoveEngineRows(rows: seq<Row>, c: Captures, venueKeys: set<Key>)
    returns (rest: seq<Row>, converted: nat, uncovered: nat, collided: nat)
    requires venueKeys == VenueKeys(rows)
    ensures rest == EngineRows(rows, c, |rows|) && |rest| == converted + uncovered
    ensures converted == CountFate(rows, c, Converted, |rows|) && uncovered == CountFate(rows, c, Unreached, |rows|)
    ensures collided == CountFate(rows, c, Collided, |rows|)
    ensures |rows| == converted + uncovered + collided + CountFate(rows, c, Already, |rows|)
  {
    var keys := venueKeys;
    rest, converted, uncovered, collided := [], 0, 0, 0;
    for i := 0 to |rows|
      invariant rest == EngineRows(rows, c, i) && |rest| == converted + uncovered
      invariant keys == VenueKeys(rows) + MovedKeys(rows, c, i)
      invariant converted == CountFate(rows, c, Converted, i) && uncovered == CountFate(rows, c, Unreached, i)
      invariant collided == CountFate(rows, c, Collided, i)
      invariant i == converted + uncovered + collided + CountFate(rows, c, Already, i)
    {
      var fate, more;
      fate, more, keys := RelabelRow(rows, c, i, keys);
      rest := rest + more;
      match fate {
        case Already =>
        case Unreached => uncovered := uncovered + 1;
        case Collided => collided := collided + 1;
        case Converted => converted := converted + 1;
      }
    }
  }

  /** Moves every engine row a capture covers, fills the venue rows, and sorts. */
  method RelabelStore(rows: seq<Row>, c: Captures) returns (out: seq<Row>, count: Count)
    ensures out == RelabelledFile(rows, c)
    ensures count.rows == |rows| && Counts(count, rows, c, |rows|)
    ensures count.rows == count.converted + count.already + count.uncovered + count.collided
    ensures |out| == |rows| - count.collided
  {
    var venue, keys, filled := FillVenue(rows, c);
    var rest, converted, uncovered, collided := MoveEngineRows(rows, c, keys);
    out := Sort(RowLe, venue + rest);
    RowOrder();
    SortLaw(RowLe, venue + rest);
    count := Count(|rows|, converted, |venue|, uncovered, collided, filled);
  }

  // -- what comes out ----------------------------------------------------

  /** What row `i` becomes; a collided row is dropped. */
  ghost function Image(rows: seq<Row>, c: Captures, i: nat): Option<Row>
    requires i < |rows|
  {
    match FateOf(rows, c, i)
    case Already => Some(Filled(rows[i], c.labels))
    case Unreached => Some(rows[i])
    case Converted => Some(Moved(rows[i], c))
    case Collided => None
  }

  ghost predicate IsImage(rows: seq<Row>, c: Captures, o: Row) {
    exists i :: 0 <= i < |rows| && Image(rows, c, i) == Some(o)
  }

  lemma {:induction false} VenueMembers(rows: seq<Row>, c: Captures, n: nat, o: Row)
    requires n <= |rows|
    ensures o in VenueRows(rows, c.labels, n)
            <==> exists i :: 0 <= i < n && OnVenue(rows[i]) && Image(rows, c, i) == Some(o)
  {
    if n > 0 {
      VenueMembers(rows, c, n - 1, o);
      assert OnVenue(rows[n - 1]) ==> Image(rows, c, n - 1) == Some(Filled(rows[n - 1], c.labels));
    }
  }

  lemma EngineRowMember(rows: seq<Row>, c: Captures, i: nat, o: Row)
    requires i < |rows|
    ensures o in EngineRow(rows, c, i) <==> !OnVenue(rows[i]) && Image(rows, c, i) == Some(o)
  {
  }

  lemma InEither(a: seq<Row>, b: seq<Row>, o: Row)
    ensures o in a + b <==> o in a || o in b
  {
  }

  lemma {:induction false} EngineMembers(rows: seq<Row>, c: Captures, n: nat, o: Row)
    requires n <= |rows|
    ensures o in EngineRows(rows, c, n)
            <==> exists i :: 0 <= i < n && o in EngineRow(rows, c, i)
  {
    if n > 0 {
      EngineMembers(rows, c, n - 1, o);
      InEither(EngineRows(rows, c, n - 1), EngineRow(rows, c, n - 1), o);
    }
  }

  /** The file holds the images of its rows and nothing else. */
  lemma FileIsImages(rows: seq<Row>, c: Captures, o: Row)
    ensures o in RelabelledFile(rows, c) <==> IsImage(rows, c, o)
    ensures o in Unsorted(rows, c) <==> IsImage(rows, c, o)
  {
    RowOrder();
    SortMembers(RowLe, Unsorted(rows, c));
    VenueMembers(rows, c, |rows|, o);
    EngineMembers(rows, c, |rows|, o);
    forall i | 0 <= i < |rows|
      ensures o in EngineRow(rows, c, i) <==> !OnVenue(rows[i]) && Image(rows, c, i) == Some(o)
    {
      EngineRowMember(rows, c, i, o);
    }
  }

  /** Row `i` is of a record within a tape of these captures, and `o` is it at the record's venue time. */
  ghost predicate FromRecord(rows: seq<Row>, c: Captures, i: nat, t: Tape, x: int, o: Row) {
    && i < |rows| && !OnVenue(rows[i]) && t in c.tapes && t.first <= x <= t.last
    && rows[i].ts == t.epoch + (x - t.anchor) && AtVenueTime(o, rows[i], x + t.off, c.labels)
  }

  /** Every venue row of the file was one before, filled or not, or is an engine row of a record some
      tape holds, at that record's venue time. */
  lemma VenueRowsComeFrom(rows: seq<Row>, c: Captures, o: Row)
    requires o in RelabelledFile(rows, c) && OnVenue(o)
    ensures || (exists r :: r in rows && OnVenue(r) && o == Filled(r, c.labels))
            || (exists i, t, x :: FromRecord(rows, c, i, t, x, o))
  {
    FileIsImages(rows, c, o);
    var i :| 0 <= i < |rows| && Image(rows, c, i) == Some(o);
    if OnVenue(rows[i]) {
      assert rows[i] in rows;
    } else {
      var t := Covering(c.tapes, rows[i].ts).value;
      var x := rows[i].ts - t.epoch + t.anchor;
      CoveringLaw(c.tapes, rows[i].ts);
      ClockLaw(rows[i], c, t, x);
      assert FromRecord(rows, c, i, t, x, o);
    }
  }

  /** A row is lost only to a collision, and then a venue row stands on the key it was moving to. */
  lemma NothingLost(rows: seq<Row>, c: Captures, i: nat)
    requires i < |rows|
    ensures Image(rows, c, i).Some? ==> Image(rows, c, i).value in RelabelledFile(rows, c)
    ensures Covered(rows[i], c) ==> Stands(rows, c, KeyOf(Moved(rows[i], c)))
  {
    if Image(rows, c, i).Some? {
      FileIsImages(rows, c, Image(rows, c, i).value);
    }
    if Covered(rows[i], c) {
      var k := KeyOf(Moved(rows[i], c));
      if k in VenueKeys(rows) {
        var j :| 0 <= j < |rows| && OnVenue(rows[j]) && KeyOf(rows[j]) == k;
        FileIsImages(rows, c, Filled(rows[j], c.labels));
        assert Image(rows, c, j) == Some(Filled(rows[j], c.labels));
      } else {
        var j := FirstMover(rows, c, i, k);
        FileIsImages(rows, c, Moved(rows[j], c));
        assert Image(rows, c, j) == Some(Moved(rows[j], c));
      }
    }
  }

  ghost predicate Stands(rows: seq<Row>, c: Captures, k: Key) {
    exists o :: o in RelabelledFile(rows, c) && OnVenue(o) && KeyOf(o) == k
  }

  /** Of the covered rows moving to one free key, the first is the one converted. */
  lemma {:induction false} FirstMover(rows: seq<Row>, c: Captures, i: nat, k: Key) returns (j: nat)
    requires i < |rows| && Covered(rows[i], c) && KeyOf(Moved(rows[i], c)) == k && k !in VenueKeys(rows)
    ensures j <= i && Covered(rows[j], c) && KeyOf(Moved(rows[j], c)) == k && FateOf(rows, c, j) == Converted
  {
    assert Opened(Seal);
    if Taken(rows, c, i) {
      var p :| 0 <= p < i && Covered(rows[p], c) && KeyOf(Moved(rows[p], c)) == k;
      j := FirstMover(rows, c, p, k);
    } else {
      j := i;
    }
  }

  /** A venue row keeps its key, its stamp and its law, and a known label: whatever the captures, it
      is never moved again. */
  lemma VenueRowStays(rows: seq<Row>, c: Captures, r: Row)
    requires r in rows && OnVenue(r)
    ensures Filled(r, c.labels) in RelabelledFile(rows, c)
    ensures KeyOf(Filled(r, c.labels)) == KeyOf(r) && OnVenue(Filled(r, c.labels))
    ensures Settled(r) ==> Filled(r, c.labels) == r
  {
    var i :| 0 <= i < |rows| && rows[i] == r;
    NothingLost(rows, c, i);
  }

  // -- the second run ----------------------------------------------------

  /** Nothing left for these captures to do. */
  ghost predicate Quiet(r: Row, c: Captures) {
    if OnVenue(r) then !Fills(r, c.labels) else Uncovered(r, c)
  }

  lemma ImageIsQuiet(rows: seq<Row>, c: Captures, i: nat)
    requires i < |rows|
    ensures Image(rows, c, i).Some? ==> Quiet(Image(rows, c, i).value, c)
  {
  }

  lemma FileIsQuiet(rows: seq<Row>, c: Captures)
    ensures forall o :: o in RelabelledFile(rows, c) ==> Quiet(o, c)
  {
    forall o | o in RelabelledFile(rows, c)
      ensures Quiet(o, c)
    {
      FileIsImages(rows, c, o);
      var i :| 0 <= i < |rows| && Image(rows, c, i) == Some(o);
      ImageIsQuiet(rows, c, i);
    }
  }

  lemma Snoc(a: seq<Row>, b: seq<Row>, all: seq<Row>, r: Row)
    requires multiset(a) + multiset(b) == multiset(all)
    ensures multiset(a + [r]) + multiset(b) == multiset(a) + multiset(b + [r]) == multiset(all + [r])
  {
  }

  lemma QuietRow(rows: seq<Row>, c: Captures, i: nat)
    requires i < |rows| && Quiet(rows[i], c)
    ensures FateOf(rows, c, i) == if OnVenue(rows[i]) then Already else Unreached
    ensures EngineRow(rows, c, i) == if OnVenue(rows[i]) then [] else [rows[i]]
    ensures OnVenue(rows[i]) ==> !Fills(rows[i], c.labels) && Filled(rows[i], c.labels) == rows[i]
  {
  }

  lemma {:induction false} QuietCounts(rows: seq<Row>, c: Captures, n: nat)
    requires n <= |rows| && forall r :: r in rows ==> Quiet(r, c)
    ensures CountFate(rows, c, Converted, n) == CountFate(rows, c, Collided, n) == CountFills(rows, c.labels, n) == 0
  {
    if n > 0 {
      QuietCounts(rows, c, n - 1);
      QuietRow(rows, c, n - 1);
    }
  }

  lemma QuietStep(rows: seq<Row>, c: Captures, n: nat)
    requires n < |rows| && Quiet(rows[n], c)
    ensures VenueRows(rows, c.labels, n + 1)
            == if OnVenue(rows[n]) then VenueRows(rows, c.labels, n) + [rows[n]] else VenueRows(rows, c.labels, n)
    ensures EngineRows(rows, c, n + 1)
            == if OnVenue(rows[n]) then EngineRows(rows, c, n) else EngineRows(rows, c, n) + [rows[n]]
    ensures rows[..n + 1] == rows[..n] + [rows[n]]
  {
    QuietRow(rows, c, n);
  }

  lemma {:induction false} QuietRun(rows: seq<Row>, c: Captures, n: nat)
    requires n <= |rows| && forall r :: r in rows ==> Quiet(r, c)
    ensures multiset(VenueRows(rows, c.labels, n)) + multiset(EngineRows(rows, c, n)) == multiset(rows[..n])
  {
    if n > 0 {
      QuietRun(rows, c, n - 1);
      QuietStep(rows, c, n - 1);
      Snoc(VenueRows(rows, c.labels, n - 1), EngineRows(rows, c, n - 1), rows[..n - 1], rows[n - 1]);
    }
  }

  /** A second run over the same captures converts, fills and drops nothing: the file is the same rows. */
  lemma SecondRun(rows: seq<Row>, c: Captures, count: Count)
    requires Counts(count, RelabelledFile(rows, c), c, |RelabelledFile(rows, c)|)
    ensures count.converted == count.collided == count.filled == 0
    ensures multiset(RelabelledFile(RelabelledFile(rows, c), c)) == multiset(RelabelledFile(rows, c))
  {
    var out := RelabelledFile(rows, c);
    FileIsQuiet(rows, c);
    QuietCounts(out, c, |out|);
    QuietRun(out, c, |out|);
    assert out[..|out|] == out;
    RowOrder();
    SortLaw(RowLe, Unsorted(out, c));
  }
}
