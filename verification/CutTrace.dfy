/** The feeder's runs with what each step met: whether the disk had room, whether a wait bound ran out.
    A cut is spooled only where there was room, a refusal is exactly a pull without it, a bound runs
    out only in a wait, and an abort stops the pulling. */
module CutTrace {
  import opened Options
  import opened CutFeed

  /** Who moves; for the feeder, what it meets. */
  datatype Move = Consume | Feed(choice: Choice)

  function After(p: Plan, s: State, m: Move): Option<State> {
    if m.Consume? then ConsumerStep(p, s) else FeederStep(p, s, m.choice)
  }

  /** `run[i]` is the state after the first `i` moves. */
  ghost predicate IsTrace(p: Plan, run: seq<State>, moves: seq<Move>) {
    && |run| == |moves| + 1 && run[0] == START
    && forall i :: 0 <= i < |moves| ==> After(p, run[i], moves[i]) == Some(run[i + 1])
  }

  lemma TraceIsRun(p: Plan, run: seq<State>, moves: seq<Move>)
    requires IsTrace(p, run, moves)
    ensures IsRun(p, run)
  {
    forall i | 0 < i < |run|
      ensures Next(p, run[i - 1], run[i])
    {
      assert After(p, run[i - 1], moves[i - 1]) == Some(run[i]);
    }
  }

  /** Every run is one of some moves. */
  lemma {:induction false} RunHasTrace(p: Plan, run: seq<State>) returns (moves: seq<Move>)
    requires IsRun(p, run)
    ensures IsTrace(p, run, moves)
    decreases |run|
  {
    if |run| == 1 {
      return [];
    }
    var n := |run| - 1;
    var before := RunHasTrace(p, run[..n]);
    var m := Consume;
    assert Next(p, run[n - 1], run[n]);
    if ConsumerStep(p, run[n - 1]) != Some(run[n]) {
      var c :| FeederStep(p, run[n - 1], c) == Some(run[n]);
      m := Feed(c);
    }
    moves := before + [m];
    forall i | 0 <= i < |moves|
      ensures After(p, run[i], moves[i]) == Some(run[i + 1])
    {
      if i < n - 1 {
        assert run[..n][i] == run[i] && run[..n][i + 1] == run[i + 1];
      }
    }
  }

  /** Move `j` is the feeder's pull of spool row `k`, and the disk had room for it or had not. */
  ghost predicate Asks(p: Plan, run: seq<State>, moves: seq<Move>, j: int, k: nat, room: bool) {
    && 0 <= j < |moves| <= |run| && run[j].feeder == Place(k) && k < |p.spool| && p.spool[k]
    && moves[j].Feed? && moves[j].choice.room == room
  }

  ghost predicate AskedBefore(p: Plan, run: seq<State>, moves: seq<Move>, i: nat, k: nat, room: bool) {
    exists j :: j < i && Asks(p, run, moves, j, k, room)
  }

  lemma AskedLater(p: Plan, run: seq<State>, moves: seq<Move>, i: nat, j: nat, k: nat, room: bool)
    requires i <= j && AskedBefore(p, run, moves, i, k, room)
    ensures AskedBefore(p, run, moves, j, k, room)
  {
    var m :| m < i && Asks(p, run, moves, m, k, room);
  }

  lemma AskedStep(p: Plan, run: seq<State>, moves: seq<Move>, i: nat, k: nat, room: bool)
    ensures AskedBefore(p, run, moves, i + 1, k, room)
            <==> AskedBefore(p, run, moves, i, k, room) || Asks(p, run, moves, i, k, room)
  {
  }

  // -- room --------------------------------------------------------------

  /** A directory appears, and a row is refused, only where the feeder pulls it. */
  lemma OnlyPullsSpool(p: Plan, s: State, m: Move, t: State, k: nat)
    requires After(p, s, m) == Some(t)
    ensures k in t.dirs && k !in s.dirs ==>
              s.feeder == Place(k) && k < |p.spool| && p.spool[k] && m.Feed? && m.choice.room
    ensures k in t.ready && k !in s.ready ==> s.feeder == Publish(k)
    ensures k in t.refused && k !in s.refused ==>
              s.feeder == Place(k) && k < |p.spool| && p.spool[k] && m.Feed? && !m.choice.room
    ensures s.feeder == Place(k) && k < |p.spool| && p.spool[k] && m.Feed? && !m.choice.room ==> k in t.refused
    ensures s.refused <= t.refused
  {
  }

  /** In every state of every interleaving, whatever is spooled or announced was pulled onto a disk that
      had room for it. */
  lemma {:induction false} PulledWithRoom(p: Plan, run: seq<State>, moves: seq<Move>, i: nat, k: nat)
    requires IsTrace(p, run, moves) && i < |run| && (k in run[i].dirs || k in run[i].ready)
    ensures AskedBefore(p, run, moves, i, k, true)
    decreases i
  {
    if i > 0 {
      var s, m, t := run[i - 1], moves[i - 1], run[i];
      assert After(p, s, m) == Some(t);
      OnlyPullsSpool(p, s, m, t, k);
      if k in s.dirs || k in s.ready {
        PulledWithRoom(p, run, moves, i - 1, k);
        AskedLater(p, run, moves, i - 1, i, k, true);
      } else if k in t.dirs {
        assert Asks(p, run, moves, i - 1, k, true);
      } else {
        TraceIsRun(p, run, moves);
        RunKeeps(p, run, i - 1);
        assert false;
      }
    }
  }

  /** A row is refused exactly when its pull found no room. */
  lemma {:induction false} RefusedExactly(p: Plan, run: seq<State>, moves: seq<Move>, i: nat, k: nat)
    requires IsTrace(p, run, moves) && i < |run|
    ensures k in run[i].refused <==> AskedBefore(p, run, moves, i, k, false)
    decreases i
  {
    if i > 0 {
      var s, m, t := run[i - 1], moves[i - 1], run[i];
      assert After(p, s, m) == Some(t);
      RefusedExactly(p, run, moves, i - 1, k);
      OnlyPullsSpool(p, s, m, t, k);
      AskedStep(p, run, moves, i - 1, k, false);
    }
  }

  /** The plan's first spool row. */
  ghost predicate FirstSpool(p: Plan, k: nat) {
    k < |p.spool| && p.spool[k] && forall i :: 0 <= i < k ==> !p.spool[i]
  }

  /** Before any row is spooled the first spool row was, with room for it. */
  lemma FirstIsPulled(p: Plan, run: seq<State>, moves: seq<Move>, i: nat, h: nat, k: nat)
    requires IsTrace(p, run, moves) && i < |run| && FirstSpool(p, k) && (h in run[i].dirs || h in run[i].ready)
    ensures AskedBefore(p, run, moves, |moves|, k, true)
  {
    PulledWithRoom(p, run, moves, i, h);
    var j: nat :| j < i && Asks(p, run, moves, j, h, true);
    if h != k {
      TraceIsRun(p, run, moves);
      RunKeeps(p, run, j);
      PulledWithRoom(p, run, moves, j, k);
      AskedLater(p, run, moves, j, |moves|, k, true);
    }
  }

  /** A disk with no room for the first spool row is never written to. */
  lemma FullDiskUntouched(p: Plan, run: seq<State>, moves: seq<Move>, i: nat, k: nat)
    requires IsTrace(p, run, moves) && i < |run| && FirstSpool(p, k)
    requires !AskedBefore(p, run, moves, |moves|, k, true)
    ensures run[i].dirs == {} && run[i].ready == {}
  {
    forall h: nat
      ensures h !in run[i].dirs && h !in run[i].ready
    {
      if h in run[i].dirs || h in run[i].ready {
        FirstIsPulled(p, run, moves, i, h, k);
      }
    }
  }

  /** Neither party can move. */
  ghost predicate Stuck(p: Plan, s: State) {
    ConsumerStep(p, s).None? && (s.feeder.Exit? || FeederBlocked(p, s))
  }

  ghost predicate EverRefused(p: Plan, run: seq<State>, moves: seq<Move>) {
    exists k :: AskedBefore(p, run, moves, |moves|, k, false)
  }

  /** A finished run with no bound run out and no stop row returns 5 exactly when a pull found no room. It
      then stopped at that row: the consumer has the cuts before it and has aborted there. Otherwise every
      cut was delivered. */
  lemma FinishedExactly(p: Plan, run: seq<State>, moves: seq<Move>) returns (k: nat)
    requires IsTrace(p, run, moves) && p.stopAt == None
    requires Stuck(p, run[|run| - 1]) && !run[|run| - 1].timedOut
    ensures var s := run[|run| - 1];
            && s.feeder == Exit(k, if EverRefused(p, run, moves) then EXIT_REFUSED else 0)
            && (EverRefused(p, run, moves) ==>
                  && AskedBefore(p, run, moves, |moves|, k, false) && s.refused == {k}
                  && s.consumer == Stopped(k) && s.abort)
            && (!EverRefused(p, run, moves) ==>
                  k == |p.spool| && s.refused == {} && s.consumer == Finished(k) && s.dirs == {})
            && (forall i: nat :: i in s.done <==> i < k)
            && (forall i: nat :: i in s.ready <==> i < k && p.spool[i])
  {
    var n := |run| - 1;
    var s := run[n];
    TraceIsRun(p, run, moves);
    RunKeeps(p, run, n);
    NoStuckRun(p, run);
    k := s.feeder.k;
    forall i: nat
      ensures i in s.refused <==> AskedBefore(p, run, moves, |moves|, i, false)
    {
      RefusedExactly(p, run, moves, n, i);
    }
    if EverRefused(p, run, moves) {
      var r: nat :| AskedBefore(p, run, moves, |moves|, r, false);
      assert r in s.refused;
      assert s.feeder == Exit(r, EXIT_REFUSED);
      assert s.refused == {r};
      RefusedStops(p, s);
    } else {
      assert s.refused == {};
      CleanRunDelivers(p, run);
    }
  }

  /** Where a finished feeder has refused a row, the consumer stopped at it. */
  lemma RefusedStops(p: Plan, s: State)
    requires Inv(p, s) && p.stopAt == None && s.feeder.Exit? && s.feeder.code == EXIT_REFUSED && !s.timedOut
    requires ConsumerStep(p, s).None?
    ensures s.consumer == Stopped(s.feeder.k)
  {
    var k := s.feeder.k;
    assert k in s.refused;
    assert k !in s.ready;
  }

  /** So on a full disk such a run ends with exit 5, the first spool row refused, nothing ever spooled or
      announced, and the consumer stopped. */
  lemma FullDiskRefuses(p: Plan, run: seq<State>, moves: seq<Move>, k: nat)
    requires IsTrace(p, run, moves) && p.stopAt == None && FirstSpool(p, k)
    requires Stuck(p, run[|run| - 1]) && !run[|run| - 1].timedOut
    requires !AskedBefore(p, run, moves, |moves|, k, true)
    ensures var s := run[|run| - 1];
            && s.feeder == Exit(k, EXIT_REFUSED) && s.refused == {k} && s.consumer == Stopped(k)
            && s.dirs == {} && s.ready == {}
  {
    var n := |run| - 1;
    FullDiskUntouched(p, run, moves, n, k);
    var r := FinishedExactly(p, run, moves);
    var s := run[n];
    assert k !in s.ready;
    assert r <= k;
    if EverRefused(p, run, moves) {
      var j :| j < |moves| && Asks(p, run, moves, j, r, false);
    }
  }

  // -- bounds ------------------------------------------------------------

  lemma TimedOutStep(p: Plan, s: State, m: Move, t: State)
    requires After(p, s, m) == Some(t)
    ensures s.timedOut ==> t.timedOut
    ensures t.timedOut && !s.timedOut ==> m.Feed? && m.choice.timeout && FeederBlocked(p, s)
    ensures m.Feed? && FeederBlocked(p, s) ==> m.choice.timeout && t.timedOut
  {
    if m.Feed? && FeederBlocked(p, s) {
      assert FeederStep(p, s, Choice(false, m.choice.room)).None?;
      assert m.choice == Choice(m.choice.timeout, m.choice.room);
    }
  }

  ghost predicate BoundRanOut(p: Plan, run: seq<State>, moves: seq<Move>, i: nat) {
    exists j :: 0 <= j < i && j < |moves| <= |run| && moves[j].Feed? && FeederBlocked(p, run[j])
  }

  /** A run is marked timed out exactly when the feeder was moved out of a wait nothing had ended. */
  lemma {:induction false} TimedOutExactly(p: Plan, run: seq<State>, moves: seq<Move>, i: nat)
    requires IsTrace(p, run, moves) && i < |run|
    ensures run[i].timedOut <==> BoundRanOut(p, run, moves, i)
    decreases i
  {
    if i > 0 {
      TimedOutExactly(p, run, moves, i - 1);
      assert After(p, run[i - 1], moves[i - 1]) == Some(run[i]);
      TimedOutStep(p, run[i - 1], moves[i - 1], run[i]);
      if BoundRanOut(p, run, moves, i) && !BoundRanOut(p, run, moves, i - 1) {
        var j :| 0 <= j < i && j < |moves| && moves[j].Feed? && FeederBlocked(p, run[j]);
        assert j == i - 1;
      }
    }
  }

  // -- abort -------------------------------------------------------------

  /** The row the feeder is already past checking the abort for. */
  ghost function Committed(s: State): set<nat> {
    if s.feeder.Sweep? || s.feeder.Place? || s.feeder.Publish? then {s.feeder.k} else {}
  }

  lemma AbortStep(p: Plan, s: State, m: Move, t: State)
    requires After(p, s, m) == Some(t) && s.abort
    ensures t.abort && t.dirs + Committed(t) <= s.dirs + Committed(s)
    ensures t.ready + Committed(t) <= s.ready + Committed(s)
  {
  }

  /** Once the consumer has aborted, at most the one row the feeder was at is still pulled or announced. */
  lemma {:induction false} AbortStops(p: Plan, run: seq<State>, moves: seq<Move>, i: nat, j: nat)
    requires IsTrace(p, run, moves) && i <= j < |run| && run[i].abort
    ensures run[j].abort && run[j].dirs + Committed(run[j]) <= run[i].dirs + Committed(run[i])
    ensures run[j].ready + Committed(run[j]) <= run[i].ready + Committed(run[i])
    decreases j
  {
    if i < j {
      AbortStops(p, run, moves, i, j - 1);
      assert After(p, run[j - 1], moves[j - 1]) == Some(run[j]);
      AbortStep(p, run[j - 1], moves[j - 1], run[j]);
    }
  }

  // -- eviction and the stop row -----------------------------------------

  lemma EvictStep(p: Plan, s: State, m: Move, t: State, h: nat)
    requires After(p, s, m) == Some(t) && h in s.dirs && h !in t.dirs
    ensures h !in s.done ==> h in t.early
  {
  }

  /** A cut leaves the spool before its done marker only after an abort, or where a wait bound ran out. */
  lemma EvictedWhenDone(p: Plan, run: seq<State>, moves: seq<Move>, i: nat, h: nat)
    requires IsTrace(p, run, moves) && i < |moves| && h in run[i].dirs && h !in run[i + 1].dirs
    ensures h in run[i].done || run[i + 1].abort || BoundRanOut(p, run, moves, i + 1)
  {
    assert After(p, run[i], moves[i]) == Some(run[i + 1]);
    EvictStep(p, run[i], moves[i], run[i + 1], h);
    TraceIsRun(p, run, moves);
    FeedIsSafe(p, run, i + 1);
    TimedOutExactly(p, run, moves, i + 1);
  }

  /** The consumer has not passed its stop row. */
  ghost predicate BeforeStop(c: Consumer, stop: nat) { c.c < stop || (c.c == stop && (c.Ask? || c.Stopped?)) }

  lemma {:induction false} NeverPassesStop(p: Plan, run: seq<State>, moves: seq<Move>, i: nat, stop: nat)
    requires IsTrace(p, run, moves) && i < |run| && p.stopAt == Some(stop) && stop < |p.spool|
    ensures BeforeStop(run[i].consumer, stop)
    decreases i
  {
    if i > 0 {
      NeverPassesStop(p, run, moves, i - 1, stop);
      assert After(p, run[i - 1], moves[i - 1]) == Some(run[i]);
      StopStep(p, run[i - 1], moves[i - 1], run[i], stop);
    }
  }

  lemma StopStep(p: Plan, s: State, m: Move, t: State, stop: nat)
    requires After(p, s, m) == Some(t) && p.stopAt == Some(stop) && stop < |p.spool| && BeforeStop(s.consumer, stop)
    ensures BeforeStop(t.consumer, stop)
  {
    if m.Feed? {
      FeederLeavesConsumer(p, s, m.choice, t);
    }
  }

  lemma FeederLeavesConsumer(p: Plan, s: State, c: Choice, t: State)
    requires FeederStep(p, s, c) == Some(t)
    ensures t.consumer == s.consumer && t.done == s.done && t.abort == s.abort
  {
  }

  /** A finished run with a stop row, in which nothing was refused and no bound ran out, stopped the consumer
      there, after every cut before it; the feeder returned 0 and left the spool empty. */
  lemma StopRowStops(p: Plan, run: seq<State>, moves: seq<Move>, stop: nat)
    requires IsTrace(p, run, moves) && p.stopAt == Some(stop) && stop < |p.spool| && Stuck(p, run[|run| - 1])
    requires !BoundRanOut(p, run, moves, |moves|) && !EverRefused(p, run, moves)
    ensures var s := run[|run| - 1];
            && s.consumer == Stopped(stop) && s.abort && s.feeder.Exit? && s.feeder.code == 0 && s.dirs == {}
            && (forall i: nat :: i in s.done <==> i < stop)
  {
    var n := |run| - 1;
    var s := run[n];
    TraceIsRun(p, run, moves);
    RunKeeps(p, run, n);
    NoStuckRun(p, run);
    TimedOutExactly(p, run, moves, n);
    NeverPassesStop(p, run, moves, n, stop);
    forall k: nat
      ensures k !in s.refused
    {
      RefusedExactly(p, run, moves, n, k);
      assert AskedBefore(p, run, moves, |moves|, k, false) ==> EverRefused(p, run, moves);
    }
    assert s.feeder == Exit(s.feeder.k, EXIT_REFUSED) ==> s.feeder.k in s.refused;
    FeedIsSafe(p, run, n);
  }
}
