/** Any interleaving of the store's operations, under any clock; and what a clock that does not go
    back adds. */
module CandleRuns {
  import opened Options
  import opened CandleStore
  import opened Derive

  datatype Op =
    | RestOp(series: nat, tf: Tf, bars: seq<Bar>, now: int, fetched: Option<int>)
    | CaptureOp(minutes: seq<MinuteBar>, now: int)
    | DeriveOp(now: int, since: Option<int>)
    | PurgeOp(now: int)

  /** What one operation does to the tables. */
  ghost predicate OpStep(t: Tables, op: Op, u: Tables) {
    match op
    case RestOp(series, tf, bars, now, fetched) => u == RestAll(t, series, tf, bars, now, LatestOpen(now, fetched))
    case CaptureOp(minutes, now) => u == CaptureAll(t, minutes, now)
    case DeriveOp(now, since) => PassOf(t, u, now, since)
    case PurgeOp(now) => u == Purged(t, now)
  }

  /** `states[i]` is the store after the first `i` operations, whatever it began as. */
  ghost predicate IsRun(ops: seq<Op>, states: seq<Tables>) {
    |states| == |ops| + 1 && forall i :: 0 <= i < |ops| ==> OpStep(states[i], ops[i], states[i + 1])
  }

  /** A purge whose clock is so far behind the bar's open that it takes the bar for a future one. */
  predicate Passes(op: Op, k: Key) { op.PurgeOp? && k.open > op.now + FUTURE_SKEW }

  ghost predicate NonePasses(ops: seq<Op>, i: nat, j: nat, k: Key)
    requires i <= j <= |ops|
  {
    forall m :: i <= m < j ==> !Passes(ops[m], k)
  }

  /** Every operation but the purge extends the tables; the purge takes exactly the keys it passes. */
  lemma OpKeeps(t: Tables, op: Op, u: Tables)
    requires OpStep(t, op, u)
    ensures !op.PurgeOp? ==> Extends(t, u)
    ensures op.PurgeOp? ==>
              && u.conflicts == t.conflicts
              && (forall k :: k in u.rows <==> k in t.rows && !Passes(op, k))
              && (forall k :: k in u.rows ==> u.rows[k] == t.rows[k])
  {
    match op
    case RestOp(series, tf, bars, now, fetched) =>
      RestKeeps(t, series, tf, bars, now, LatestOpen(now, fetched), |bars|, now);
    case CaptureOp(minutes, now) => CaptureKeeps(t, minutes, now, |minutes|, now);
    case DeriveOp(now, since) => PassKeeps(t, u, now, since, now);
    case PurgeOp(now) => PurgeKeeps(t, now, now);
  }

  lemma {:induction false} FrozenUnpassed(ops: seq<Op>, states: seq<Tables>, i: nat, j: nat, k: Key)
    requires IsRun(ops, states) && i <= j <= |ops| && Frozen(states[i], k) && NonePasses(ops, i, j, k)
    ensures Frozen(states[j], k) && states[j].rows[k] == states[i].rows[k]
    decreases j
  {
    if i < j {
      FrozenUnpassed(ops, states, i, j - 1, k);
      assert OpStep(states[j - 1], ops[j - 1], states[j]);
      OpKeeps(states[j - 1], ops[j - 1], states[j]);
    }
  }

  /** The row is there, and as it was, at every point from `i` to `j`. */
  ghost predicate Unchanged(states: seq<Tables>, i: nat, j: nat, k: Key)
    requires i <= j < |states| && k in states[i].rows
  {
    forall m :: i <= m <= j ==> k in states[m].rows && states[m].rows[k] == states[i].rows[k]
  }

  /** A fetched bar that had closed when it was fetched keeps its values, its source and its fetch time
      through every later operation under any clock, exactly when no purge in between takes it for a
      future bar. */
  lemma FrozenExactly(ops: seq<Op>, states: seq<Tables>, i: nat, j: nat, k: Key)
    requires IsRun(ops, states) && i <= j <= |ops| && Frozen(states[i], k)
    ensures Unchanged(states, i, j, k) <==> NonePasses(ops, i, j, k)
  {
    if NonePasses(ops, i, j, k) {
      forall m | i <= m <= j
        ensures k in states[m].rows && states[m].rows[k] == states[i].rows[k]
      {
        FrozenUnpassed(ops, states, i, m, k);
      }
    } else {
      var m :| i <= m < j && Passes(ops[m], k);
      assert OpStep(states[m], ops[m], states[m + 1]);
      OpKeeps(states[m], ops[m], states[m + 1]);
      assert k !in states[m + 1].rows;
    }
  }

  /** Such a run: a closed bar is fetched, the clock steps back by ten minutes, and a purge takes it. */
  lemma ClockStepsBack() returns (ops: seq<Op>, states: seq<Tables>, k: Key)
    ensures |ops| == 2 && IsRun(ops, states) && Frozen(states[1], k) && k !in states[2].rows
  {
    var bar := Ohlcv(1, 1, 1, 1, None);
    k := Key(0, M1, 9 * MS_1M);
    ops := [RestOp(0, M1, [Bar(k.open, bar)], 10 * MS_1M, None), PurgeOp(0)];
    var t := Tables(map[], map[]);
    var u := RestAll(t, 0, M1, ops[0].bars, 10 * MS_1M, LatestOpen(10 * MS_1M, None));
    states := [t, u, Purged(u, 0)];
    FetchedFrozen(t, k, bar, 10 * MS_1M);
    PurgeKeeps(u, 0, 0);
  }

  /** A closed bar fetched alone into an empty place is stored frozen. */
  lemma FetchedFrozen(t: Tables, k: Key, bar: Ohlcv, now: int)
    requires k !in t.rows && k.open + TfMs(k.tf) <= now
    ensures Frozen(RestAll(t, k.series, k.tf, [Bar(k.open, bar)], now, LatestOpen(now, None)), k)
  {
    var bars := [Bar(k.open, bar)];
    assert RestUpTo(t, k.series, k.tf, bars, now, LatestOpen(now, None), 0) == t;
    assert Key(k.series, k.tf, bars[0].ts) == k;
  }

  /** A logged disagreement keeps the time it was first seen, under any clock and through any purge. */
  lemma {:induction false} FirstSightingForever(ops: seq<Op>, states: seq<Tables>, i: nat, j: nat, k: Key)
    requires IsRun(ops, states) && i <= j <= |ops| && k in states[i].conflicts
    ensures k in states[j].conflicts && states[j].conflicts[k].firstSeen == states[i].conflicts[k].firstSeen
    decreases j
  {
    if i < j {
      FirstSightingForever(ops, states, i, j - 1, k);
      assert OpStep(states[j - 1], ops[j - 1], states[j]);
      OpKeeps(states[j - 1], ops[j - 1], states[j]);
    }
  }

  /** No capture or derived row ever replaces a fetched one, under any clock; a fetched row goes exactly
      when a purge passes it. */
  lemma RestStaysRest(ops: seq<Op>, states: seq<Tables>, i: nat, k: Key)
    requires IsRun(ops, states) && i < |ops| && k in states[i].rows && states[i].rows[k].source == Rest
    ensures k in states[i + 1].rows ==> states[i + 1].rows[k].source == Rest
    ensures k !in states[i + 1].rows <==> Passes(ops[i], k)
  {
    assert OpStep(states[i], ops[i], states[i + 1]);
    OpKeeps(states[i], ops[i], states[i + 1]);
  }

  // -- a clock that does not go back -------------------------------------

  /** A run from the empty store under a clock that does not go back. */
  ghost predicate IsForwardRun(ops: seq<Op>, states: seq<Tables>) {
    && IsRun(ops, states) && states[0] == Tables(map[], map[])
    && forall i, j :: 0 <= i <= j < |ops| ==> ops[i].now <= ops[j].now
  }

  lemma OpSound(t: Tables, op: Op, u: Tables, clock: int)
    requires OpStep(t, op, u) && Sound(t, clock) && clock <= op.now
    ensures Sound(u, op.now)
  {
    SoundLater(t, clock, op.now);
    match op
    case RestOp(series, tf, bars, now, fetched) =>
      RestKeeps(t, series, tf, bars, now, LatestOpen(now, fetched), |bars|, clock);
    case CaptureOp(minutes, now) => CaptureKeeps(t, minutes, now, |minutes|, clock);
    case DeriveOp(now, since) => PassKeeps(t, u, now, since, clock);
    case PurgeOp(now) => PurgeKeeps(t, now, clock);
  }

  lemma {:induction false} RunIsSound(ops: seq<Op>, states: seq<Tables>, i: nat)
    requires IsForwardRun(ops, states) && i < |ops|
    ensures Sound(states[i], ops[i].now)
  {
    if i > 0 {
      RunIsSound(ops, states, i - 1);
      assert OpStep(states[i - 1], ops[i - 1], states[i]);
      OpSound(states[i - 1], ops[i - 1], states[i], ops[i - 1].now);
      assert ops[i - 1].now <= ops[i].now;
      SoundLater(states[i], ops[i - 1].now, ops[i].now);
    }
  }

  /** Under such a clock no purge passes a frozen row, so it is there for good. */
  lemma {:induction false} FrozenForever(ops: seq<Op>, states: seq<Tables>, i: nat, j: nat, k: Key)
    requires IsForwardRun(ops, states) && i <= j <= |ops| && Frozen(states[i], k)
    ensures NonePasses(ops, i, j, k) && Frozen(states[j], k) && states[j].rows[k] == states[i].rows[k]
    decreases j
  {
    if i < j {
      FrozenForever(ops, states, i, j - 1, k);
      RunIsSound(ops, states, j - 1);
      FrozenUnpassed(ops, states, i, j, k);
    }
  }

  /** Under such a clock every logged disagreement is about a row that is still there, frozen. */
  lemma ConflictsAreFrozen(ops: seq<Op>, states: seq<Tables>, i: nat, k: Key)
    requires IsForwardRun(ops, states) && i <= |ops| && k in states[i].conflicts
    ensures Frozen(states[i], k)
  {
    if i < |ops| {
      RunIsSound(ops, states, i);
    } else if i > 0 {
      RunIsSound(ops, states, i - 1);
      assert OpStep(states[i - 1], ops[i - 1], states[i]);
      OpSound(states[i - 1], ops[i - 1], states[i], ops[i - 1].now);
    }
  }
}
