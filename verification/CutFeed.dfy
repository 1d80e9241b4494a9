/** The cut feeder's handshake with its in-order consumer, as interleaved steps of two processes
    over the ready / done / refused / abort markers of one spool directory. */
module CutFeed {
  import opened Options

  const EXIT_REFUSED: nat := 5

  /** Where the feeder is; `k` is the row it has reached. */
  datatype Feeder =
    | Top(k: nat)                          // the wait for cut k - 2, if there is one
    | CheckAbort(k: nat)
    | Sweep(k: nat, todo: seq<nat>)        // evicting the held cuts that are done
    | Place(k: nat)                        // a local row is skipped; the floor; the pull
    | Publish(k: nat)                      // materialised, the ready marker not yet written
    | Finish(k: nat)
    | EvictAll(k: nat, todo: seq<nat>)     // after abort
    | Drain(k: nat, todo: seq<nat>)        // waiting for each held cut, then evicting it
    | Exit(k: nat, code: nat)

  /** Where the consumer is; `c` is the cut it is at. */
  datatype Consumer = Ask(c: nat) | Wait(c: nat) | Read(c: nat) | Finished(c: nat) | Stopped(c: nat)

  /** `early` records the cuts evicted without their done marker, `timedOut` that a wait bound ran out. */
  datatype State = State(
    feeder: Feeder, consumer: Consumer,
    held: seq<nat>, dirs: set<nat>, ready: set<nat>, done: set<nat>, refused: set<nat>, abort: bool,
    timedOut: bool, early: set<nat>)

  /** `spool[k]`: row k is pulled into the spool; otherwise it is read in place. */
  datatype Plan = Plan(spool: seq<bool>, stopAt: Option<nat>)

  /** What the feeder cannot know: whether a wait's bound runs out now, whether the disk has room. */
  datatype Choice = Choice(timeout: bool, room: bool)

  const START: State := State(Top(0), Ask(0), [], {}, {}, {}, {}, false, false, {})

  function Without(s: seq<nat>, h: nat): seq<nat> {
    if s == [] then [] else if s[0] == h then s[1..] else [s[0]] + Without(s[1..], h)
  }

  function Evicted(s: State, h: nat): State {
    s.(dirs := s.dirs - {h}, early := if h in s.done then s.early else s.early + {h})
  }

  /** One feeder step; None when it is waiting with nothing to see, or has exited. */
  function FeederStep(p: Plan, s: State, c: Choice): Option<State> {
    match s.feeder
    case Top(k) =>
      if k >= |p.spool| then Some(s.(feeder := Finish(k)))
      else if k < 2 || k - 2 in s.done then Some(s.(feeder := CheckAbort(k)))
      else if s.abort then Some(s.(feeder := Finish(k)))
      else if c.timeout then Some(s.(feeder := Finish(k), timedOut := true))
      else None
    case CheckAbort(k) =>
      Some(s.(feeder := if s.abort then Finish(k) else Sweep(k, s.held)))
    case Sweep(k, todo) =>
      if todo == [] then Some(s.(feeder := Place(k)))
      else
        var h := todo[0];
        var t := s.(feeder := Sweep(k, todo[1..]));
        Some(if h in s.done then Evicted(t, h).(held := Without(s.held, h)) else t)
    case Place(k) =>
      if k >= |p.spool| || !p.spool[k] then Some(s.(feeder := Top(k + 1)))
      else if !c.room then Some(s.(feeder := Exit(k, EXIT_REFUSED), refused := s.refused + {k}))
      else Some(s.(feeder := Publish(k), dirs := s.dirs + {k}, held := s.held + [k]))
    case Publish(k) => Some(s.(feeder := Top(k + 1), ready := s.ready + {k}))
    case Finish(k) => Some(s.(feeder := if s.abort then EvictAll(k, s.held) else Drain(k, s.held)))
    case EvictAll(k, todo) =>
      if todo == [] then Some(s.(feeder := Exit(k, 0)))
      else Some(Evicted(s, todo[0]).(feeder := EvictAll(k, todo[1..])))
    case Drain(k, todo) =>
      if todo == [] then Some(s.(feeder := Exit(k, 0)))
      else if todo[0] in s.done || s.abort || c.timeout then
        Some(Evicted(s, todo[0]).(feeder := Drain(k, todo[1..]),
                                  timedOut := s.timedOut || !(todo[0] in s.done || s.abort)))
      else None
    case Exit(_, _) => None
  }

  /** One consumer step: ready, read, done, in order; abort at its stop row or on a refusal. */
  function ConsumerStep(p: Plan, s: State): Option<State> {
    match s.consumer
    case Ask(c) =>
      if c >= |p.spool| then Some(s.(consumer := Finished(c)))
      else if p.stopAt == Some(c) then Some(s.(consumer := Stopped(c), abort := true))
      else Some(s.(consumer := if p.spool[c] then Wait(c) else Read(c)))
    case Wait(c) =>
      if c in s.ready then Some(s.(consumer := Read(c)))
      else if c in s.refused then Some(s.(consumer := Stopped(c), abort := true))
      else None
    case Read(c) => Some(s.(consumer := Ask(c + 1), done := s.done + {c}))
    case Finished(_) => None
    case Stopped(_) => None
  }

  ghost predicate Next(p: Plan, s: State, t: State) {
    ConsumerStep(p, s) == Some(t) || exists c :: FeederStep(p, s, c) == Some(t)
  }

  /** Every finite interleaving from the start. */
  ghost predicate IsRun(p: Plan, run: seq<State>) {
    run != [] && run[0] == START && forall i :: 0 < i < |run| ==> Next(p, run[i - 1], run[i])
  }

  // -- the invariant -----------------------------------------------------

  ghost predicate Increasing(s: seq<nat>) {
    forall i, j :: 0 <= i < j < |s| ==> s[i] < s[j]
  }

  /** What the spool holds at each point of the feeder. */
  ghost predicate SpoolInv(s: State) {
    var k := s.feeder.k;
    Increasing(s.held) &&
    match s.feeder
    case Sweep(_, todo) =>
      && s.dirs == Elems(s.held) && Within(s.held, k - 2, k)
      && (k >= 2 ==> k - 2 in s.done)
      && (forall h :: h in s.held && h < k - 1 ==> h in todo)
    case CheckAbort(_) => s.dirs == Elems(s.held) && Within(s.held, k - 2, k) && (k >= 2 ==> k - 2 in s.done)
    case Place(_) => s.dirs == Elems(s.held) && Within(s.held, k - 1, k)
    case Publish(_) => s.dirs == Elems(s.held) && Within(s.held, k - 1, k + 1) && k in s.dirs
    case EvictAll(_, todo) => s.dirs <= Elems(todo) && s.abort && Within(todo, k - 2, k)
    case Drain(_, todo) => s.dirs <= Elems(todo) && Within(todo, k - 2, k)
    case Exit(_, code) =>
      (code == 0 ==> s.dirs == {}) && (code != 0 ==> s.dirs == Elems(s.held) && Within(s.held, k - 1, k))
    case _ => s.dirs == Elems(s.held) && Within(s.held, k - 2, k)
  }

  ghost predicate Within(s: seq<nat>, lo: int, hi: int) {
    forall h :: h in s ==> lo <= h < hi
  }

  function Elems(s: seq<nat>): set<nat> { set h | h in s }

  /** The markers mean what they say: done is what the consumer has passed, ready the spool rows the
      feeder has passed, a refusal the row it stopped at. */
  ghost predicate MarkerInv(p: Plan, s: State) {
    && (forall i: nat :: i in s.done <==> i < s.consumer.c)
    && s.consumer.c <= |p.spool| && s.feeder.k <= |p.spool|
    && (forall i: nat :: i in s.ready <==> i < s.feeder.k && p.spool[i])
    && (forall i: nat :: i < s.consumer.c && p.spool[i] ==> i in s.ready)
    && (s.consumer.Wait? || s.consumer.Read? ==> s.consumer.c < |p.spool|)
    && (s.consumer.Wait? ==> p.spool[s.consumer.c])
    && (s.consumer.Read? && p.spool[s.consumer.c] ==> s.consumer.c in s.ready)
    && (s.abort <==> s.consumer.Stopped?)
    && (s.consumer.Stopped? ==> p.stopAt == Some(s.consumer.c) || s.consumer.c in s.refused)
    && (s.consumer.Finished? ==> s.consumer.c == |p.spool|)
    && (forall i: nat :: i in s.refused <==> s.feeder == Exit(i, EXIT_REFUSED))
    && (!s.timedOut && !s.abort && (s.feeder.Finish? || s.feeder.Drain?) ==>
          s.feeder.k == |p.spool|)
    && (s.feeder.Exit? && s.feeder.code == 0 && !s.timedOut && !s.abort ==> s.feeder.k == |p.spool|)
    && (s.feeder.Exit? ==> s.feeder.code == 0 || s.feeder.code == EXIT_REFUSED)
    && (s.feeder.Exit? && s.feeder.code != 0 ==> s.feeder.k < |p.spool| && p.spool[s.feeder.k])
    && (s.feeder.CheckAbort? || s.feeder.Sweep? || s.feeder.Place? || s.feeder.Publish? ==> s.feeder.k < |p.spool|)
    && (s.feeder.Publish? ==> p.spool[s.feeder.k])
  }

  /** While nothing went wrong, a cut announced and not yet done is there to be read. */
  ghost predicate ReadableInv(s: State) {
    && (!s.abort && !s.timedOut ==> forall i :: i in s.ready && i !in s.done ==> i in s.dirs)
    && (s.early != {} ==> s.abort || s.timedOut)
  }

  ghost predicate Inv(p: Plan, s: State) { MarkerInv(p, s) && SpoolInv(s) && ReadableInv(s) }

  lemma ElemsTail(s: seq<nat>)
    requires s != []
    ensures Elems(s) == {s[0]} + Elems(s[1..])
  {
    assert s == [s[0]] + s[1..];
  }

  lemma IncreasingCons(x: nat, s: seq<nat>)
    requires Increasing(s) && forall h :: h in Elems(s) ==> x < h
    ensures Increasing([x] + s) && Elems([x] + s) == {x} + Elems(s)
  {
    forall j | 0 <= j < |s|
      ensures x < s[j]
    {
      assert s[j] in Elems(s);
    }
  }

  lemma IncreasingTail(s: seq<nat>)
    requires Increasing(s) && s != []
    ensures Increasing(s[1..]) && forall h :: h in Elems(s[1..]) ==> s[0] < h
  {
  }

  lemma {:induction false} WithoutElems(s: seq<nat>, h: nat)
    requires Increasing(s)
    ensures Elems(Without(s, h)) == Elems(s) - {h}
    ensures Increasing(Without(s, h))
  {
    if s != [] {
      ElemsTail(s);
      IncreasingTail(s);
      WithoutElems(s[1..], h);
      IncreasingCons(s[0], Without(s[1..], h));
    }
  }

  // -- every step keeps it -----------------------------------------------

  lemma ConsumerKeeps(p: Plan, s: State, t: State)
    requires Inv(p, s) && ConsumerStep(p, s) == Some(t)
    ensures Inv(p, t)
  {
    if s.consumer.Read? {
      ReadKeeps(p, s, t);
    } else {
      assert t == s.(consumer := t.consumer, abort := t.abort);
      assert t.consumer.c == s.consumer.c;
    }
  }

  lemma ReadKeeps(p: Plan, s: State, t: State)
    requires Inv(p, s) && s.consumer.Read? && ConsumerStep(p, s) == Some(t)
    ensures Inv(p, t)
  {
    assert t == s.(consumer := Ask(s.consumer.c + 1), done := s.done + {s.consumer.c});
  }

  lemma SweepKeeps(p: Plan, s: State, c: Choice, t: State)
    requires Inv(p, s) && s.feeder.Sweep? && FeederStep(p, s, c) == Some(t)
    ensures Inv(p, t)
  {
    var todo := s.feeder.todo;
    if todo != [] {
      WithoutElems(s.held, todo[0]);
      assert todo == [todo[0]] + todo[1..];
      forall h | h in t.held
        ensures h in s.held && (h == todo[0] ==> h !in s.done)
      {
        assert h in Elems(t.held);
      }
    }
  }

  lemma PlaceKeeps(p: Plan, s: State, c: Choice, t: State)
    requires Inv(p, s) && s.feeder.Place? && FeederStep(p, s, c) == Some(t)
    ensures Inv(p, t)
  {
    var k := s.feeder.k;
    if t.feeder.Publish? {
      assert forall h :: h in t.held <==> h in s.held || h == k;
      assert Elems(t.held) == Elems(s.held) + {k};
      forall i | 0 <= i < |s.held|
        ensures s.held[i] < k
      {
        assert s.held[i] in s.held;
      }
    }
  }

  /** Dropping the head of the list being walked drops at most its directory. */
  lemma TailCovers(dirs: set<nat>, todo: seq<nat>, lo: int, hi: int)
    requires todo != [] && dirs <= Elems(todo) && Within(todo, lo, hi)
    ensures dirs - {todo[0]} <= Elems(todo[1..]) && Within(todo[1..], lo, hi)
  {
    ElemsTail(todo);
    forall h | h in todo[1..]
      ensures lo <= h < hi
    {
      assert h in Elems(todo);
    }
  }

  lemma DrainKeeps(p: Plan, s: State, c: Choice, t: State)
    requires Inv(p, s) && s.feeder.Drain? && FeederStep(p, s, c) == Some(t)
    ensures Inv(p, t)
  {
    var todo := s.feeder.todo;
    if todo == [] {
      assert Elems(todo) == {};
    } else {
      TailCovers(s.dirs, todo, s.feeder.k - 2, s.feeder.k);
    }
  }

  lemma EvictAllKeeps(p: Plan, s: State, c: Choice, t: State)
    requires Inv(p, s) && s.feeder.EvictAll? && FeederStep(p, s, c) == Some(t)
    ensures Inv(p, t)
  {
    var todo := s.feeder.todo;
    if todo == [] {
      assert Elems(todo) == {};
    } else {
      TailCovers(s.dirs, todo, s.feeder.k - 2, s.feeder.k);
    }
  }

  /** The steps that only move the feeder or publish a marker. */
  lemma MoveKeeps(p: Plan, s: State, c: Choice, t: State)
    requires Inv(p, s) && FeederStep(p, s, c) == Some(t)
    requires s.feeder.Top? || s.feeder.CheckAbort? || s.feeder.Publish? || s.feeder.Finish?
    ensures Inv(p, t)
  {
  }

  lemma FeederKeeps(p: Plan, s: State, c: Choice, t: State)
    requires Inv(p, s) && FeederStep(p, s, c) == Some(t)
    ensures Inv(p, t)
  {
    match s.feeder
    case Sweep(_, _) => SweepKeeps(p, s, c, t);
    case Place(_) => PlaceKeeps(p, s, c, t);
    case Drain(_, _) => DrainKeeps(p, s, c, t);
    case EvictAll(_, _) => EvictAllKeeps(p, s, c, t);
    case _ => MoveKeeps(p, s, c, t);
  }

  lemma NextKeeps(p: Plan, s: State, t: State)
    requires Inv(p, s) && Next(p, s, t)
    ensures Inv(p, t)
  {
    if ConsumerStep(p, s) == Some(t) {
      ConsumerKeeps(p, s, t);
    } else {
      var c :| FeederStep(p, s, c) == Some(t);
      FeederKeeps(p, s, c, t);
    }
  }

  lemma {:induction false} RunKeeps(p: Plan, run: seq<State>, i: nat)
    requires IsRun(p, run) && i < |run|
    ensures Inv(p, run[i])
  {
    if i == 0 {
      assert Elems(START.held) == {};
    } else {
      RunKeeps(p, run, i - 1);
      NextKeeps(p, run[i - 1], run[i]);
    }
  }

  // -- the results -------------------------------------------------------

  lemma {:induction false} SubsetSize(s: set<nat>, t: set<nat>)
    requires s <= t
    ensures |s| <= |t|
  {
    if s != {} {
      var x :| x in s;
      SubsetSize(s - {x}, t - {x});
    }
  }

  lemma PairBound(s: set<nat>, a: int)
    requires forall h :: h in s ==> a <= h <= a + 1
    ensures |s| <= 2
  {
    var lo: nat, hi: nat := if a < 0 then 0 else a, if a < 0 then 0 else a + 1;
    SubsetSize(s, {lo, hi});
  }

  lemma AtMostTwo(p: Plan, s: State)
    requires Inv(p, s)
    ensures |s.dirs| <= 2
  {
    var k: int := s.feeder.k;
    PairBound(s.dirs, if s.feeder.Publish? || s.feeder.Place? || s.feeder.Exit? then k - 1 else k - 2);
  }

  /** In every interleaving, at every moment: at most two cuts are spooled; a cut is evicted before its
      done marker only after an abort or a wait bound that ran out; the consumer never reads a cut that
      is not there unless a bound ran out; and a feeder that returned 0 left no directory behind. */
  lemma FeedIsSafe(p: Plan, run: seq<State>, i: nat)
    requires IsRun(p, run) && i < |run|
    ensures var s := run[i];
            && |s.dirs| <= 2
            && (s.early != {} ==> s.abort || s.timedOut)
            && (s.consumer.Read? ==> s.consumer.c < |p.spool|)
            && (s.consumer.Read? && p.spool[s.consumer.c] && !s.timedOut ==> s.consumer.c in s.dirs)
            && (s.feeder.Exit? && s.feeder.code == 0 ==> s.dirs == {})
  {
    RunKeeps(p, run, i);
    AtMostTwo(p, run[i]);
  }

  /** Waiting, with the bound not running out. */
  ghost predicate FeederBlocked(p: Plan, s: State) {
    !s.feeder.Exit? && forall room :: FeederStep(p, s, Choice(false, room)).None?
  }

  ghost predicate ConsumerBlocked(p: Plan, s: State) {
    s.consumer.Wait? && ConsumerStep(p, s).None?
  }

  /** A blocked feeder waits for a cut it has announced and the consumer has not passed. */
  lemma BlockedFeeder(p: Plan, s: State)
    requires Inv(p, s) && FeederBlocked(p, s)
    ensures !s.abort && s.consumer.c < s.feeder.k
  {
    assert FeederStep(p, s, Choice(false, true)).None?;
    if s.feeder.Drain? && s.feeder.todo != [] {
      assert s.feeder.todo[0] in s.feeder.todo;
    }
  }

  /** The two are never both waiting on each other. */
  lemma NeverBothBlocked(p: Plan, run: seq<State>, i: nat)
    requires IsRun(p, run) && i < |run|
    ensures !(FeederBlocked(p, run[i]) && ConsumerBlocked(p, run[i]))
  {
    RunKeeps(p, run, i);
    if FeederBlocked(p, run[i]) {
      BlockedFeeder(p, run[i]);
    }
  }

  /** A run in which neither party can move has finished: the feeder has exited, and the consumer has
      read everything or aborted, or is left waiting because a wait bound of the feeder's ran out. */
  lemma NoStuckRun(p: Plan, run: seq<State>)
    requires IsRun(p, run)
    requires var s := run[|run| - 1]; ConsumerStep(p, s).None? && (s.feeder.Exit? || FeederBlocked(p, s))
    ensures var s := run[|run| - 1];
            s.feeder.Exit? && (s.consumer.Finished? || s.consumer.Stopped? || (s.consumer.Wait? && s.timedOut))
  {
    RunKeeps(p, run, |run| - 1);
    NeverBothBlocked(p, run, |run| - 1);
    var s := run[|run| - 1];
    if FeederBlocked(p, s) {
      BlockedFeeder(p, s);
    }
  }

  /** With no bound run out, no refusal and no stop row, a finished run has delivered every cut, in
      order, and left the spool empty. */
  lemma CleanRunDelivers(p: Plan, run: seq<State>)
    requires IsRun(p, run) && p.stopAt == None
    requires var s := run[|run| - 1];
             && !s.timedOut && s.refused == {}
             && ConsumerStep(p, s).None? && (s.feeder.Exit? || FeederBlocked(p, s))
    ensures var s := run[|run| - 1];
            && s.consumer == Finished(|p.spool|) && s.feeder == Exit(|p.spool|, 0)
            && s.dirs == {} && s.early == {}
            && (forall i: nat :: i in s.done <==> i < |p.spool|)
            && (forall i: nat :: i in s.ready <==> i < |p.spool| && p.spool[i])
  {
    NoStuckRun(p, run);
    RunKeeps(p, run, |run| - 1);
    var s := run[|run| - 1];
    assert s.feeder.k in s.refused <==> s.feeder == Exit(s.feeder.k, EXIT_REFUSED);
  }

  // -- termination -------------------------------------------------------

  function ConsumerRank(p: Plan, s: State): nat
    requires s.consumer.c <= |p.spool|
  {
    var left := 4 * (|p.spool| - s.consumer.c);
    match s.consumer
    case Ask(_) => left + 3
    case Wait(_) => left + 2
    case Read(_) => left + 1
    case _ => 0
  }

  function FeederRank(p: Plan, s: State): nat
    requires s.feeder.k <= |p.spool|
  {
    var left := 10 * (|p.spool| - s.feeder.k) + 10;
    match s.feeder
    case Top(_) => left + 9
    case CheckAbort(_) => left + 8
    case Sweep(_, todo) => left + 3 + |todo|
    case Place(_) => left + 2
    case Publish(_) => left + 1
    case Finish(_) => 9
    case EvictAll(_, todo) => 1 + |todo|
    case Drain(_, todo) => 1 + |todo|
    case Exit(_, _) => 0
  }

  lemma ConsumerDecreases(p: Plan, s: State, t: State)
    requires s.consumer.c <= |p.spool| && (s.consumer.Wait? || s.consumer.Read? ==> s.consumer.c < |p.spool|)
    requires ConsumerStep(p, s) == Some(t)
    ensures t.consumer.c <= |p.spool| && ConsumerRank(p, t) < ConsumerRank(p, s) && t.feeder == s.feeder
  {
  }

  lemma FeederDecreases(p: Plan, s: State, c: Choice, t: State)
    requires s.feeder.k <= |p.spool| && (s.feeder.CheckAbort? || s.feeder.Finish? ==> |s.held| <= 2)
    requires s.feeder.Sweep? || s.feeder.Place? || s.feeder.Publish? ==> s.feeder.k < |p.spool|
    requires FeederStep(p, s, c) == Some(t)
    ensures t.feeder.k <= |p.spool| && FeederRank(p, t) < FeederRank(p, s) && t.consumer == s.consumer
  {
  }

  lemma {:induction false} IncreasingSpread(s: seq<nat>)
    requires Increasing(s) && s != []
    ensures s[0] + |s| - 1 <= s[|s| - 1]
  {
    if |s| > 1 {
      IncreasingSpread(s[..|s| - 1]);
    }
  }

  /** At most two cuts are held whenever the held list is walked. */
  lemma HeldIsShort(s: seq<nat>, lo: int)
    requires Increasing(s) && Within(s, lo, lo + 2)
    ensures |s| <= 2
  {
    if s != [] {
      IncreasingSpread(s);
      assert s[0] in s && s[|s| - 1] in s;
    }
  }

  predicate InPlan(p: Plan, s: State) { s.consumer.c <= |p.spool| && s.feeder.k <= |p.spool| }

  function Rank(p: Plan, s: State): nat
    requires InPlan(p, s)
  {
    FeederRank(p, s) + ConsumerRank(p, s)
  }

  lemma StepDecreases(p: Plan, s: State, t: State)
    requires Inv(p, s) && Next(p, s, t)
    ensures InPlan(p, s) && InPlan(p, t) && Rank(p, t) < Rank(p, s)
  {
    NextKeeps(p, s, t);
    if ConsumerStep(p, s) == Some(t) {
      ConsumerDecreases(p, s, t);
    } else {
      var c :| FeederStep(p, s, c) == Some(t);
      if s.feeder.CheckAbort? || s.feeder.Finish? {
        HeldIsShort(s.held, s.feeder.k - 2);
      }
      FeederDecreases(p, s, c, t);
    }
  }

  /** Every interleaving is finite: no run is longer than a bound linear in the plan. */
  lemma {:induction false} RunIsBounded(p: Plan, run: seq<State>, i: nat)
    requires IsRun(p, run) && i < |run|
    ensures InPlan(p, run[i]) && i + Rank(p, run[i]) <= 14 * |p.spool| + 22
  {
    if i > 0 {
      RunIsBounded(p, run, i - 1);
      RunKeeps(p, run, i - 1);
      StepDecreases(p, run[i - 1], run[i]);
    }
  }
}
