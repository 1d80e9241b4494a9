/** The BIN15 evidence stores and their merges. A store is a file of rows of one kind, read whole,
    keyed, merged and written back sorted; the three merges are one loop under three rules. */
module Evidence {
  import opened Fixed
  import opened Sorting

  const Y_UNKNOWN := -1

  // -- rows --------------------------------------------------------------

  datatype Sample = Sample(tau: int, pHat: int, pRaw: int, arm: int, entered: int, mid: int)

  datatype Trade = Trade(family: int, expiry: int, isYes: int, px: int, qty: int, p: int, detail: seq<int>)

  /** A counterfactual fire; `ts == 0` never held. */
  datatype Stamp = Stamp(ts: int, isYes: int, px: int)

  datatype Row =
    | Ledger(ts: int, family: int, outcome: int, sample: Sample, y: int, yEngine: int, yNext: int, venue: bool)
    | Entry(ts: int, outcome: int, origin: int, start: int, offset: int, trade: Trade,
            y: int, yEngine: int, yNext: int, venue: bool)
    | LateEntry(ts: int, outcome: int, origin: int, trade: Trade, y: int, yNext: int, law: string)
    | LateFire(outcome: int, family: int, expiry: int, ff: Stamp, ctl: Stamp, entered: int,
               y: int, yNext: int, law: string)

  /** What identifies a row in its store. The stores are separate files, so keys of different kinds
      never meet. */
  datatype Key =
    | Sampled(ts: int, family: int, outcome: int)
    | Placed(late: bool, outcome: int, origin: int)
    | Fired(outcome: int)

  function KeyOf(r: Row): Key {
    if r.Ledger? then Sampled(r.ts, r.family, r.outcome)
    else if r.LateFire? then Fired(r.outcome)
    else Placed(r.LateEntry?, r.outcome, r.origin)
  }

  predicate Settled(r: Row) { r.y != Y_UNKNOWN }

  /** Whether the row is on the venue's law: the late stores hold no other kind. */
  predicate OnVenue(r: Row) { if r.Ledger? || r.Entry? then r.venue else true }

  // -- one row meets another ---------------------------------------------

  /** The earlier of two fires. */
  function Earlier(a: Stamp, b: Stamp): Stamp {
    if b.ts != 0 && (a.ts == 0 || b.ts < a.ts) then b else a
  }

  /** What the store keeps when `r` arrives under the key `was` holds. */
  function Merged(was: Row, r: Row): Row
    requires KeyOf(was) == KeyOf(r)
  {
    if was.Ledger? then (if r.venue && !was.venue then r else was)
    else if was.Entry? then was
    else if was.LateEntry? then (if was.law == r.law && !Settled(was) && Settled(r) then r else was)
    else
      var y := if Settled(was) || !Settled(r) then was.y else r.y;
      var next := if was.yNext != Y_UNKNOWN then was.yNext else r.yNext;
      if was.law != r.law then
        LateFire(was.outcome, was.family, was.expiry, was.ff, was.ctl, was.entered, y, next, was.law)
      else
        LateFire(was.outcome, was.family, was.expiry, Earlier(was.ff, r.ff), Earlier(was.ctl, r.ctl),
                 Max(was.entered, r.entered), y, next, was.law)
  }

  /** No later: a fire once stamped stays stamped, and only ever moves earlier. */
  predicate NoLater(a: Stamp, b: Stamp) { b == a || (b.ts != 0 && (a.ts == 0 || b.ts < a.ts)) }

  predicate LabelKept(was: Row, now: Row) {
    && (Settled(was) ==> now.y == was.y)
    && (was.yNext != Y_UNKNOWN ==> now.yNext == was.yNext)
  }

  /** What a merge may do to a stored row. A venue row of the ledger and a settled late entry are
      final; an engine row can only become the venue's, an unsettled entry only a settled one of its
      own law; a fire keeps its law and its known labels, and its stamps never move later. */
  predicate Improves(was: Row, now: Row) {
    && KeyOf(was) == KeyOf(now)
    && (was.Ledger? ==> now == was || (now.venue && !was.venue))
    && (was.Entry? ==> now == was)
    && (was.LateEntry? ==> now == was || (now.law == was.law && Settled(now) && !Settled(was)))
    && (was.LateFire? ==>
          && now.law == was.law && now.family == was.family && now.expiry == was.expiry
          && NoLater(was.ff, now.ff) && NoLater(was.ctl, now.ctl) && was.entered <= now.entered
          && LabelKept(was, now))
  }

  /** The row has nothing more to say. */
  predicate Absorbed(v: Row, r: Row)
    requires KeyOf(v) == KeyOf(r)
  {
    Merged(v, r) == v
  }

  lemma MergedImproves(was: Row, r: Row)
    requires KeyOf(was) == KeyOf(r)
    ensures Improves(was, Merged(was, r)) && Absorbed(Merged(was, r), r)
  {
  }

  lemma ImprovesTransitive(a: Row, b: Row, c: Row)
    requires Improves(a, b) && Improves(b, c)
    ensures Improves(a, c)
  {
  }

  /** What is absorbed stays absorbed, whatever else arrives. */
  lemma StaysAbsorbed(v: Row, r: Row, other: Row)
    requires KeyOf(v) == KeyOf(r) == KeyOf(other) && Absorbed(v, r)
    ensures KeyOf(Merged(v, other)) == KeyOf(r) && Absorbed(Merged(v, other), r)
  {
  }

  /** What absorbing a fire of the same law means: the stored stamps are the earliest, the label and
      the entry flag at least as known. */
  lemma AbsorbedFire(v: Row, r: Row)
    requires v.LateFire? && r.LateFire? && v.outcome == r.outcome && v.law == r.law
    ensures Absorbed(v, r) <==>
            && (r.ff.ts != 0 ==> v.ff.ts != 0 && v.ff.ts <= r.ff.ts)
            && (r.ctl.ts != 0 ==> v.ctl.ts != 0 && v.ctl.ts <= r.ctl.ts)
            && r.entered <= v.entered && (Settled(r) ==> Settled(v))
            && (r.yNext != Y_UNKNOWN ==> v.yNext != Y_UNKNOWN)
  {
  }

  /** And of the other kinds: a venue row leaves no engine row, a settled entry no unsettled one of its law,
      and a fire of another law no label it knows unknown. */
  lemma AbsorbedMeans(v: Row, r: Row)
    requires KeyOf(v) == KeyOf(r)
    ensures v.Ledger? ==> (Absorbed(v, r) <==> (r.venue ==> v.venue))
    ensures v.Entry? ==> Absorbed(v, r)
    ensures v.LateEntry? ==> (Absorbed(v, r) <==> (v.law == r.law && Settled(r) ==> Settled(v)))
    ensures v.LateFire? && v.law != r.law ==>
              (Absorbed(v, r) <==>
                 (Settled(r) ==> Settled(v)) && (r.yNext != Y_UNKNOWN ==> v.yNext != Y_UNKNOWN))
  {
  }

  // -- the store's order -------------------------------------------------

  datatype Rank = Rank(kind: int, a: int, b: int, c: int)

  /** What each store sorts by. */
  function RankOf(r: Row): Rank {
    if r.Ledger? then Rank(0, r.ts, r.family, r.outcome)
    else if r.LateFire? then Rank(1, r.expiry, r.outcome, 0)
    else Rank(if r.LateEntry? then 2 else 3, r.ts, r.outcome, r.origin)
  }

  predicate RankLe(p: Rank, q: Rank) {
    || p.kind < q.kind
    || (p.kind == q.kind && (p.a < q.a || (p.a == q.a && (p.b < q.b || (p.b == q.b && p.c <= q.c)))))
  }

  predicate RowLe(x: Row, y: Row) { RankLe(RankOf(x), RankOf(y)) }

  lemma RowOrder()
    ensures TotalPreorder(RowLe)
  {
  }

  lemma RankTellsKey(x: Row, y: Row)
    requires RowLe(x, y) && RowLe(y, x)
    ensures KeyOf(x) == KeyOf(y)
  {
  }

  // -- the dict ----------------------------------------------------------

  type Dict = map<Key, Row>

  predicate Keyed(d: Dict) { forall k :: k in d ==> KeyOf(d[k]) == k }

  /** The dict a file makes: the last row under a key is the one it holds. */
  function DictOf(rows: seq<Row>): (d: Dict)
    ensures Keyed(d)
  {
    if rows == [] then map[] else
      var r := rows[|rows| - 1];
      DictOf(rows[..|rows| - 1])[KeyOf(r) := r]
  }

  lemma {:induction false} DictIsRows(rows: seq<Row>)
    ensures forall k :: k in DictOf(rows) ==> DictOf(rows)[k] in rows
    ensures forall r :: r in rows ==> KeyOf(r) in DictOf(rows)
  {
    if rows != [] {
      DictIsRows(rows[..|rows| - 1]);
      assert rows == rows[..|rows| - 1] + [rows[|rows| - 1]];
    }
  }

  function MergeOne(d: Dict, r: Row): Dict
    requires Keyed(d)
  {
    var k := KeyOf(r);
    d[k := if k in d then Merged(d[k], r) else r]
  }

  /** The dict after the first `n` incoming rows. */
  function MergeUpTo(d: Dict, incoming: seq<Row>, n: nat): (m: Dict)
    requires Keyed(d) && n <= |incoming|
    ensures Keyed(m)
  {
    if n == 0 then d else MergeOne(MergeUpTo(d, incoming, n - 1), incoming[n - 1])
  }

  function MergedDict(existing: seq<Row>, incoming: seq<Row>): (m: Dict)
    ensures Keyed(m)
  {
    MergeUpTo(DictOf(existing), incoming, |incoming|)
  }

  function KeysOf(rows: seq<Row>): set<Key> { set i | 0 <= i < |rows| :: KeyOf(rows[i]) }

  /** The merged keys are both files' keys. */
  lemma {:induction false} MergeKeys(d: Dict, incoming: seq<Row>, n: nat)
    requires Keyed(d) && n <= |incoming|
    ensures MergeUpTo(d, incoming, n).Keys == d.Keys + KeysOf(incoming[..n])
  {
    if n > 0 {
      MergeKeys(d, incoming, n - 1);
      assert incoming[..n] == incoming[..n - 1] + [incoming[n - 1]];
      KeysOfSnoc(incoming[..n - 1], incoming[n - 1]);
    }
  }

  /** Every stored row only improves. */
  lemma {:induction false} MergeImproves(d: Dict, incoming: seq<Row>, n: nat, k: Key)
    requires Keyed(d) && n <= |incoming| && k in d
    ensures k in MergeUpTo(d, incoming, n) && Improves(d[k], MergeUpTo(d, incoming, n)[k])
  {
    if n > 0 {
      MergeImproves(d, incoming, n - 1, k);
      var p, r := MergeUpTo(d, incoming, n - 1), incoming[n - 1];
      if KeyOf(r) == k {
        MergedImproves(p[k], r);
        ImprovesTransitive(d[k], p[k], Merged(p[k], r));
      }
    }
  }

  lemma KeysOfSnoc(rows: seq<Row>, r: Row)
    ensures KeysOf(rows + [r]) == KeysOf(rows) + {KeyOf(r)}
  {
    forall k
      ensures k in KeysOf(rows + [r]) <==> k in KeysOf(rows) + {KeyOf(r)}
    {
      if k in KeysOf(rows) {
        var i :| 0 <= i < |rows| && KeyOf(rows[i]) == k;
        assert (rows + [r])[i] == rows[i];
      }
      assert (rows + [r])[|rows|] == r;
    }
  }

  /** Every incoming row is absorbed by what the store ends up with under its key. */
  lemma {:induction false} MergeAbsorbs(d: Dict, incoming: seq<Row>, n: nat, i: nat)
    requires Keyed(d) && i < n <= |incoming|
    ensures var m := MergeUpTo(d, incoming, n);
            KeyOf(incoming[i]) in m && Absorbed(m[KeyOf(incoming[i])], incoming[i])
  {
    var p, r := MergeUpTo(d, incoming, n - 1), incoming[n - 1];
    if i < n - 1 {
      MergeAbsorbs(d, incoming, n - 1, i);
      if KeyOf(r) == KeyOf(incoming[i]) {
        StaysAbsorbed(p[KeyOf(r)], incoming[i], r);
      }
    } else if KeyOf(r) in p {
      MergedImproves(p[KeyOf(r)], r);
    }
  }

  /** The law is corrected: once a venue row has come for a key the store holds a venue row under it; an
      entry is settled once a settled one of its law has come, and a fire's label known once any row's is. */
  lemma MergeCorrects(existing: seq<Row>, incoming: seq<Row>, i: nat)
    requires i < |incoming|
    ensures var m, r := MergedDict(existing, incoming), incoming[i];
            && KeyOf(r) in m
            && (r.Ledger? && r.venue ==> m[KeyOf(r)].venue)
            && (r.LateEntry? && Settled(r) && m[KeyOf(r)].law == r.law ==> Settled(m[KeyOf(r)]))
            && (r.LateFire? ==>
                  && (Settled(r) ==> Settled(m[KeyOf(r)]))
                  && (r.yNext != Y_UNKNOWN ==> m[KeyOf(r)].yNext != Y_UNKNOWN))
  {
    var m, r := MergedDict(existing, incoming), incoming[i];
    MergeAbsorbs(DictOf(existing), incoming, |incoming|, i);
    AbsorbedMeans(m[KeyOf(r)], r);
    if r.LateFire? && m[KeyOf(r)].law == r.law {
      AbsorbedFire(m[KeyOf(r)], r);
    }
  }

  /** A row of the ledger or an entry is never made up: it was stored, or it came. */
  lemma {:induction false} MergeSource(d: Dict, incoming: seq<Row>, n: nat, k: Key)
    requires Keyed(d) && n <= |incoming| && k in MergeUpTo(d, incoming, n) && !k.Fired?
    ensures var row := MergeUpTo(d, incoming, n)[k]; (k in d && row == d[k]) || row in incoming[..n]
  {
    if n > 0 {
      var p, r := MergeUpTo(d, incoming, n - 1), incoming[n - 1];
      assert incoming[..n] == incoming[..n - 1] + [r];
      if k in p {
        MergeSource(d, incoming, n - 1, k);
      }
    }
  }

  /** Absorbed rows change nothing. */
  lemma {:induction false} MergeOfAbsorbed(d: Dict, incoming: seq<Row>, n: nat)
    requires Keyed(d) && n <= |incoming|
    requires forall i :: 0 <= i < n ==> KeyOf(incoming[i]) in d && Absorbed(d[KeyOf(incoming[i])], incoming[i])
    ensures MergeUpTo(d, incoming, n) == d
  {
    if n > 0 {
      MergeOfAbsorbed(d, incoming, n - 1);
    }
  }

  // -- the file ----------------------------------------------------------

  predicate Unique(rows: seq<Row>) {
    forall i, j :: 0 <= i < j < |rows| ==> KeyOf(rows[i]) != KeyOf(rows[j])
  }

  /** The dict's rows, each once, in the store's order. */
  ghost predicate Lists(d: Dict, s: seq<Row>) {
    && SortedBy(RowLe, s) && Unique(s)
    && (forall r :: r in s ==> KeyOf(r) in d && d[KeyOf(r)] == r)
    && forall k :: k in d ==> d[k] in s
  }

  lemma {:induction false} DictOfUnique(rows: seq<Row>)
    requires Unique(rows)
    ensures forall r :: r in rows ==> KeyOf(r) in DictOf(rows) && DictOf(rows)[KeyOf(r)] == r
  {
    if rows != [] {
      var n := |rows| - 1;
      DictOfUnique(rows[..n]);
      forall r | r in rows
        ensures KeyOf(r) in DictOf(rows) && DictOf(rows)[KeyOf(r)] == r
      {
        var i :| 0 <= i < |rows| && rows[i] == r;
        if i < n {
          assert r in rows[..n];
        }
      }
    }
  }

  /** Reading a listed dict back gives the dict. */
  lemma ListsReads(d: Dict, s: seq<Row>)
    requires Keyed(d) && Lists(d, s)
    ensures DictOf(s) == d
  {
    DictOfUnique(s);
    DictIsRows(s);
    forall k
      ensures k in DictOf(s) <==> k in d
      ensures k in d ==> DictOf(s)[k] == d[k]
    {
      if k in d {
        assert d[k] in s;
      }
      if k in DictOf(s) {
        assert DictOf(s)[k] in s;
      }
    }
  }

  lemma NoneInEmpty(s: seq<Row>, t: seq<Row>)
    requires forall r :: r in t ==> r in s
    ensures s == [] ==> t == []
  {
    if t != [] {
      assert t[0] in s;
    }
  }

  lemma {:induction false} SortedOnce(s: seq<Row>, t: seq<Row>)
    requires SortedBy(RowLe, s) && Unique(s) && SortedBy(RowLe, t) && Unique(t)
    requires forall r :: r in s <==> r in t
    ensures s == t
  {
    NoneInEmpty(s, t);
    if s != [] {
      assert s[0] in t;
      assert t[0] in s;
      FirstIsLeast(s, t[0]);
      FirstIsLeast(t, s[0]);
      RankTellsKey(s[0], t[0]);
      SameKeySame(s, s[0], t[0]);
      forall r
        ensures r in s[1..] <==> r in t[1..]
      {
        TailMembers(s, r);
        TailMembers(t, r);
      }
      SortedOnce(s[1..], t[1..]);
      assert s == [s[0]] + s[1..] && t == [t[0]] + t[1..];
    }
  }

  lemma FirstIsLeast(s: seq<Row>, r: Row)
    requires SortedBy(RowLe, s) && r in s
    ensures RowLe(s[0], r)
  {
    var i :| 0 <= i < |s| && s[i] == r;
  }

  lemma SameKeySame(s: seq<Row>, x: Row, y: Row)
    requires Unique(s) && x in s && y in s && KeyOf(x) == KeyOf(y)
    ensures x == y
  {
    var i :| 0 <= i < |s| && s[i] == x;
    var j :| 0 <= j < |s| && s[j] == y;
  }

  lemma TailMembers(s: seq<Row>, r: Row)
    requires s != [] && Unique(s)
    ensures r in s[1..] <==> r in s && r != s[0]
  {
    if r in s && r != s[0] {
      var i :| 0 <= i < |s| && s[i] == r;
      assert s[1..][i - 1] == r;
    }
    if r in s[1..] {
      var i :| 0 <= i < |s[1..]| && s[1..][i] == r;
      assert s[i + 1] == r;
    }
  }

  lemma ListsUnique(d: Dict, s: seq<Row>, t: seq<Row>)
    requires Lists(d, s) && Lists(d, t)
    ensures s == t
  {
    SortedOnce(s, t);
  }

  /** A file has as many keys as rows exactly when no key repeats. */
  lemma {:induction false} UniqueCount(s: seq<Row>)
    ensures |KeysOf(s)| <= |s| && (Unique(s) <==> |KeysOf(s)| == |s|)
  {
    if s != [] {
      var n := |s| - 1;
      UniqueCount(s[..n]);
      assert s == s[..n] + [s[n]];
      KeysOfSnoc(s[..n], s[n]);
      if KeyOf(s[n]) in KeysOf(s[..n]) {
        assert KeysOf(s) == KeysOf(s[..n]);
        var i :| 0 <= i < n && KeyOf(s[..n][i]) == KeyOf(s[n]);
        assert KeyOf(s[i]) == KeyOf(s[n]);
      } else {
        UniqueSnoc(s[..n], s[n]);
      }
    }
  }

  lemma UniqueSnoc(s: seq<Row>, r: Row)
    requires KeyOf(r) !in KeysOf(s)
    ensures Unique(s + [r]) <==> Unique(s)
  {
    var t := s + [r];
    forall i | 0 <= i < |s|
      ensures KeyOf(t[i]) == KeyOf(s[i]) && KeyOf(s[i]) != KeyOf(r)
    {
      assert KeyOf(s[i]) in KeysOf(s);
    }
    if Unique(t) {
      forall i, j | 0 <= i < j < |s|
        ensures KeyOf(s[i]) != KeyOf(s[j])
      {
        assert t[i] == s[i] && t[j] == s[j];
      }
    }
  }

  lemma UniquePermuted(s: seq<Row>, t: seq<Row>)
    requires |s| == |t| && forall r :: r in s <==> r in t
    ensures KeysOf(s) == KeysOf(t) && (Unique(s) <==> Unique(t))
  {
    UniqueCount(s);
    UniqueCount(t);
    KeysOfMembers(s, t);
    KeysOfMembers(t, s);
  }

  lemma KeysOfMembers(s: seq<Row>, t: seq<Row>)
    requires forall r :: r in s ==> r in t
    ensures KeysOf(s) <= KeysOf(t)
  {
    forall k | k in KeysOf(s)
      ensures k in KeysOf(t)
    {
      var i :| 0 <= i < |s| && KeyOf(s[i]) == k;
      assert s[i] in s;
      var j :| 0 <= j < |t| && t[j] == s[i];
    }
  }

  /** Writes the dict out sorted. */
  method Listed(d: Dict) returns (s: seq<Row>)
    requires Keyed(d)
    ensures Lists(d, s)
  {
    var keys, out: seq<Row> := d.Keys, [];
    while keys != {}
      invariant keys <= d.Keys && Unique(out)
      invariant forall r :: r in out ==> KeyOf(r) in d && KeyOf(r) !in keys && d[KeyOf(r)] == r
      invariant forall k :: k in d && k !in keys ==> d[k] in out
      decreases |keys|
    {
      var k :| k in keys;
      keys, out := keys - {k}, out + [d[k]];
    }
    s := Sort(RowLe, out);
    RowOrder();
    SortLaw(RowLe, out);
    SortMembers(RowLe, out);
    UniquePermuted(out, s);
  }

  /** Every dict has its listing. */
  lemma Listing(d: Dict) returns (s: seq<Row>)
    requires Keyed(d)
    ensures Lists(d, s)
    decreases |d|
  {
    if d == map[] {
      s := [];
    } else {
      var k :| k in d;
      var rest := Listing(d - {k});
      s := Insert(RowLe, d[k], rest);
      ListsInsert(d, k, rest, s);
    }
  }

  lemma ListsInsert(d: Dict, k: Key, rest: seq<Row>, s: seq<Row>)
    requires Keyed(d) && k in d && Lists(d - {k}, rest) && s == Insert(RowLe, d[k], rest)
    ensures Lists(d, s)
  {
    RowOrder();
    InsertLaw(RowLe, d[k], rest);
    InsertMembers(d[k], rest, s);
    forall o | o in rest
      ensures KeyOf(o) != k && KeyOf(o) in d && d[KeyOf(o)] == o
    {
      assert KeyOf(o) in d - {k};
    }
    NewIsUnique(rest, d[k], s);
    forall j | j in d
      ensures d[j] in s
    {
      assert j != k ==> j in d - {k};
    }
  }

  lemma InsertMembers(x: Row, rest: seq<Row>, s: seq<Row>)
    requires multiset(s) == multiset{x} + multiset(rest)
    ensures forall r :: r in s <==> r == x || r in rest
  {
    forall r
      ensures r in s <==> r == x || r in rest
    {
      assert r in s <==> r in multiset(s);
      assert r in rest <==> r in multiset(rest);
    }
  }

  lemma NewIsUnique(rest: seq<Row>, r: Row, s: seq<Row>)
    requires Unique(rest) && (forall o :: o in rest ==> KeyOf(o) != KeyOf(r))
    requires multiset(s) == multiset{r} + multiset(rest)
    ensures Unique(s)
  {
    var all := rest + [r];
    assert multiset(all) == multiset(s);
    assert |multiset(all)| == |all| && |multiset(s)| == |s|;
    InsertMembers(r, rest, s);
    InsertMembers(r, rest, all);
    assert KeyOf(r) !in KeysOf(rest);
    UniqueSnoc(rest, r);
    UniquePermuted(all, s);
  }

  lemma {:induction false} DictKeys(rows: seq<Row>)
    ensures DictOf(rows).Keys == KeysOf(rows)
  {
    DictIsRows(rows);
    forall k
      ensures k in DictOf(rows) <==> k in KeysOf(rows)
    {
      if k in DictOf(rows) {
        assert DictOf(rows)[k] in rows;
      }
    }
  }

  /** How many of the first `n` incoming rows find their key free. */
  ghost function AddedUpTo(e: set<Key>, incoming: seq<Row>, n: nat): nat
    requires n <= |incoming|
  {
    if n == 0 then 0
    else
      var k := KeyOf(incoming[n - 1]);
      AddedUpTo(e, incoming, n - 1) + if k in KeysOf(incoming[..n - 1]) || k in e then 0 else 1
  }

  /** They are the keys the file did not have, each once. */
  lemma {:induction false} AddedKeys(e: set<Key>, incoming: seq<Row>, n: nat)
    requires n <= |incoming|
    ensures AddedUpTo(e, incoming, n) == |KeysOf(incoming[..n]) - e|
  {
    if n > 0 {
      AddedKeys(e, incoming, n - 1);
      KeysOfNext(incoming, n - 1);
      OneMore(KeysOf(incoming[..n - 1]), KeysOf(incoming[..n]), e, KeyOf(incoming[n - 1]));
    }
  }

  lemma KeysOfNext(rows: seq<Row>, n: nat)
    requires n < |rows|
    ensures KeysOf(rows[..n + 1]) == KeysOf(rows[..n]) + {KeyOf(rows[n])}
  {
    assert rows[..n + 1] == rows[..n] + [rows[n]];
    KeysOfSnoc(rows[..n], rows[n]);
  }

  lemma OneMore(a: set<Key>, b: set<Key>, e: set<Key>, k: Key)
    requires b == a + {k}
    ensures |b - e| == |a - e| + if k in a || k in e then 0 else 1
  {
    if k in a || k in e {
      assert b - e == a - e;
    } else {
      assert b - e == (a - e) + {k};
    }
  }

  /** Merges `incoming` into the file `existing`. */
  method Merge(existing: seq<Row>, incoming: seq<Row>) returns (merged: seq<Row>, added: nat)
    ensures Lists(MergedDict(existing, incoming), merged)
    ensures added == |KeysOf(incoming) - KeysOf(existing)|
  {
    var held;
    held, added := MergeRows(DictOf(existing), incoming);
    DictKeys(existing);
    AddedKeys(KeysOf(existing), incoming, |incoming|);
    assert incoming[..|incoming|] == incoming;
    merged := Listed(held);
  }

  method MergeRows(d: Dict, incoming: seq<Row>) returns (held: Dict, added: nat)
    requires Keyed(d)
    ensures held == MergeUpTo(d, incoming, |incoming|) && added == AddedUpTo(d.Keys, incoming, |incoming|)
  {
    held, added := d, 0;
    for i := 0 to |incoming|
      invariant held == MergeUpTo(d, incoming, i) && added == AddedUpTo(d.Keys, incoming, i)
    {
      MergeKeys(d, incoming, i);
      var r := incoming[i];
      if KeyOf(r) in held {
        held := held[KeyOf(r) := Merged(held[KeyOf(r)], r)];
      } else {
        held := held[KeyOf(r) := r];
        added := added + 1;
      }
    }
  }

  /** Merging the same rows again changes nothing and adds nothing, whatever the file held. */
  lemma MergeAgain(existing: seq<Row>, incoming: seq<Row>, merged: seq<Row>, again: seq<Row>)
    requires Lists(MergedDict(existing, incoming), merged)
    requires Lists(MergedDict(merged, incoming), again)
    ensures again == merged && KeysOf(incoming) - KeysOf(merged) == {}
  {
    var d := MergedDict(existing, incoming);
    ListsReads(d, merged);
    forall i | 0 <= i < |incoming|
      ensures KeyOf(incoming[i]) in d && Absorbed(d[KeyOf(incoming[i])], incoming[i])
    {
      MergeAbsorbs(DictOf(existing), incoming, |incoming|, i);
    }
    MergeOfAbsorbed(d, incoming, |incoming|);
    ListsUnique(d, merged, again);
    DictKeys(merged);
  }

  /** Within a law the merged fire carries the earliest stamp of every row that reached it. */
  lemma EarliestFire(existing: seq<Row>, incoming: seq<Row>, f: Row)
    requires f.LateFire? && f in incoming
    ensures var m := MergedDict(existing, incoming);
            && KeyOf(f) in m
            && var now := m[KeyOf(f)];
               now.LateFire? && (now.law == f.law ==>
                 && (f.ff.ts != 0 ==> now.ff.ts != 0 && now.ff.ts <= f.ff.ts)
                 && (f.ctl.ts != 0 ==> now.ctl.ts != 0 && now.ctl.ts <= f.ctl.ts)
                 && f.entered <= now.entered && (Settled(f) ==> Settled(now)))
  {
    var i :| 0 <= i < |incoming| && incoming[i] == f;
    MergeAbsorbs(DictOf(existing), incoming, |incoming|, i);
    var now := MergedDict(existing, incoming)[KeyOf(f)];
    if now.law == f.law {
      AbsorbedFire(now, f);
    }
  }

  ghost predicate FiredIn(rows: seq<Row>, law: string, ff: Stamp) {
    exists i :: 0 <= i < |rows| && rows[i].LateFire? && rows[i].law == law && rows[i].ff == ff
  }

  ghost predicate ControlIn(rows: seq<Row>, law: string, ctl: Stamp) {
    exists i :: 0 <= i < |rows| && rows[i].LateFire? && rows[i].law == law && rows[i].ctl == ctl
  }

  /** Every merged stamp is one some row of that law carried: nothing is made up. */
  lemma {:induction false} StampHasSource(existing: seq<Row>, incoming: seq<Row>, n: nat, k: Key)
    requires n <= |incoming|
    requires k in MergeUpTo(DictOf(existing), incoming, n) && k.Fired?
    ensures var now := MergeUpTo(DictOf(existing), incoming, n)[k];
            && (FiredIn(existing, now.law, now.ff) || FiredIn(incoming, now.law, now.ff))
            && (ControlIn(existing, now.law, now.ctl) || ControlIn(incoming, now.law, now.ctl))
  {
    if n == 0 {
      DictIsRows(existing);
      assert DictOf(existing)[k] in existing;
    } else {
      var p, r := MergeUpTo(DictOf(existing), incoming, n - 1), incoming[n - 1];
      if k in p {
        StampHasSource(existing, incoming, n - 1, k);
      }
      if KeyOf(r) == k {
        assert FiredIn(incoming, r.law, r.ff) && ControlIn(incoming, r.law, r.ctl);
      }
    }
  }

  // -- what repeated keys do ---------------------------------------------

  /** No later row of the file has the key of `r`. */
  predicate LastWord(rows: seq<Row>, r: Row) {
    exists j :: 0 <= j < |rows| && rows[j] == r && Later(rows, j)
  }

  predicate Later(rows: seq<Row>, j: nat)
    requires j < |rows|
  {
    forall m :: j < m < |rows| ==> KeyOf(rows[m]) != KeyOf(rows[j])
  }

  lemma LastWordSnoc(rows: seq<Row>, x: Row, r: Row)
    ensures LastWord(rows + [x], r) <==> x == r || (KeyOf(x) != KeyOf(r) && LastWord(rows, r))
  {
    var all, n := rows + [x], |rows|;
    if x == r {
      assert all[n] == r && Later(all, n);
    }
    if KeyOf(x) != KeyOf(r) && LastWord(rows, r) {
      var j :| 0 <= j < n && rows[j] == r && Later(rows, j);
      assert all[j] == r && Later(all, j);
    }
    if LastWord(all, r) && x != r {
      var j :| 0 <= j < |all| && all[j] == r && Later(all, j);
      assert j < n && KeyOf(all[n]) != KeyOf(all[j]);
      forall m | j < m < n
        ensures KeyOf(rows[m]) != KeyOf(rows[j])
      {
        assert KeyOf(all[m]) != KeyOf(all[j]);
      }
      assert Later(rows, j);
    }
  }

  lemma {:induction false} DictHolds(rows: seq<Row>, r: Row)
    ensures (KeyOf(r) in DictOf(rows) && DictOf(rows)[KeyOf(r)] == r) <==> LastWord(rows, r)
  {
    if rows != [] {
      var n := |rows| - 1;
      DictHolds(rows[..n], r);
      LastWordSnoc(rows[..n], rows[n], r);
      assert rows == rows[..n] + [rows[n]];
    }
  }

  predicate VenueSample(r: Row) { r.Ledger? && r.venue }

  /** "The law is corrected, never reverted": no venue row of the ledger is lost to any merge,
      exactly when in the file no venue row is followed by another row of its key. */
  lemma VenueRowsStay(existing: seq<Row>)
    ensures (forall incoming: seq<Row>, r ::
               r in existing && VenueSample(r) ==> r in MergedDict(existing, incoming).Values)
            <==> (forall r :: r in existing && VenueSample(r) ==> LastWord(existing, r))
  {
    if forall r :: r in existing && VenueSample(r) ==> LastWord(existing, r) {
      forall incoming: seq<Row>, r | r in existing && VenueSample(r)
        ensures r in MergedDict(existing, incoming).Values
      {
        DictHolds(existing, r);
        MergeImproves(DictOf(existing), incoming, |incoming|, KeyOf(r));
        assert MergedDict(existing, incoming)[KeyOf(r)] == r;
      }
    } else {
      var r :| r in existing && VenueSample(r) && !LastWord(existing, r);
      DictHolds(existing, r);
      var none: seq<Row> := [];
      assert MergedDict(existing, none) == DictOf(existing);
      assert r !in MergedDict(existing, none).Values;
    }
  }
}
