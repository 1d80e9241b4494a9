/** The ring-buffer grid itself: 64-slot mark and ratio rings, a 1024-slot ring of squared
    returns with its rolling sum and count, filled lazily. Every method is proved against the
    log of `LateModel`; nothing here asks the calls to be ordered in time. */
module LateGrids {
  import opened Fixed
  import opened LateModel
  import opened Sealing

  const SIGMA_MIN_OBS: int := 300
  const SIGMA_MAX: int := 100_000_000

  /** The second whose sample slot `i` of an `n`-slot ring holds when the ring is filled up to `at`. */
  function Owner(at: int, i: int, n: int): int
    requires 0 < n
  {
    at - (at - i) % n
  }

  /** Filling one more second hands exactly one slot to it. */
  lemma OwnerNext(at: int, i: int, n: int)
    requires (n == SHORT_RING || n == R2_RING) && 0 <= i < n
    ensures Owner(at + 1, i, n) == if i == (at + 1) % n then at + 1 else Owner(at, i, n)
  {
  }

  /** A slot belongs to the second asked for exactly when that second is among the last `n`. */
  lemma OwnerOfSlot(at: int, s: int, n: int)
    requires n == SHORT_RING || n == R2_RING
    ensures Owner(at, s % n, n) == s <==> at - n < s <= at
  {
    if n == SHORT_RING {
      OwnerOfShortSlot(at, s);
    } else {
      OwnerOfReturnSlot(at, s);
    }
  }

  lemma OwnerOfShortSlot(at: int, s: int)
    ensures Owner(at, s % SHORT_RING, SHORT_RING) == s <==> at - SHORT_RING < s <= at
  {
    assert (at - s % SHORT_RING) % SHORT_RING == (at - s) % SHORT_RING;
  }

  lemma OwnerOfReturnSlot(at: int, s: int)
    ensures Owner(at, s % R2_RING, R2_RING) == s <==> at - R2_RING < s <= at
  {
    assert (at - s % R2_RING) % R2_RING == (at - s) % R2_RING;
  }

  /** A slot is marked valid exactly when its second is in the sigma window and has a return. */
  ghost predicate SlotHolds(ok: bool, sq: int, samples: map<int, Cell>, at: int, s: int) {
    ok == (at - SIGMA_WINDOW < s && ReturnOk(samples, s)) && (ok ==> sq == Term(samples, s))
  }

  ghost predicate RingHolds(ok: seq<bool>, sq: seq<int>, samples: map<int, Cell>, at: int) {
    && |ok| == R2_RING && |sq| == R2_RING
    && forall i :: 0 <= i < R2_RING ==> SlotHolds(ok[i], sq[i], samples, at, Owner(at, i, R2_RING))
  }

  ghost predicate ShortHolds(mark: seq<int>, ratio: seq<int>, samples: map<int, Cell>, at: int) {
    && |mark| == SHORT_RING && |ratio| == SHORT_RING
    && forall i :: 0 <= i < SHORT_RING ==> Cell(mark[i], ratio[i]) == CellAt(samples, Owner(at, i, SHORT_RING))
  }

  /** The rings describe the samples up to second `at`: the short rings the last 64 seconds, the
      return ring the returns of the sigma window and no other, and the totals their sum and count. */
  ghost predicate Holds(mark: seq<int>, ratio: seq<int>, ok: seq<bool>, sq: seq<int>, sum: int, n: int,
                        samples: map<int, Cell>, at: int)
  {
    && (forall s :: s in samples ==> 1 <= s <= at)
    && ShortHolds(mark, ratio, samples, at)
    && RingHolds(ok, sq, samples, at)
    && sum == SumR2(samples, at - SIGMA_WINDOW, at)
    && n == CountR(samples, at - SIGMA_WINDOW, at)
  }

  /** Overwriting the slot of second `s` moves the short rings by one second. */
  lemma ShortRolls(mark: seq<int>, ratio: seq<int>, samples: map<int, Cell>, next: map<int, Cell>, s: int)
    requires ShortHolds(mark, ratio, samples, s - 1) && s in next && next == samples[s := next[s]]
    ensures mark[(s - 1) % SHORT_RING] == CellAt(samples, s - 1).mark
    ensures ShortHolds(mark[s % SHORT_RING := next[s].mark], ratio[s % SHORT_RING := next[s].ratio], next, s)
  {
    OwnerOfSlot(s - 1, s - 1, SHORT_RING);
    var m1, r1 := mark[s % SHORT_RING := next[s].mark], ratio[s % SHORT_RING := next[s].ratio];
    forall i | 0 <= i < SHORT_RING
      ensures Cell(m1[i], r1[i]) == CellAt(next, Owner(s, i, SHORT_RING))
    {
      OwnerNext(s - 1, i, SHORT_RING);
    }
  }

  /** Clearing the slot that leaves the window and overwriting the slot of the new second moves the
      ring by one second: no other slot changes hands. */
  lemma RingRolls(ok: seq<bool>, sq: seq<int>, samples: map<int, Cell>, next: map<int, Cell>, s: int)
    requires RingHolds(ok, sq, samples, s - 1)
    requires (forall k :: k in samples ==> k < s) && s in next && next == samples[s := next[s]]
    ensures ok[(s - SIGMA_WINDOW) % R2_RING] == ReturnOk(samples, s - SIGMA_WINDOW)
    ensures ReturnOk(samples, s - SIGMA_WINDOW) ==>
              sq[(s - SIGMA_WINDOW) % R2_RING] == Term(samples, s - SIGMA_WINDOW)
    ensures RingHolds(ok[(s - SIGMA_WINDOW) % R2_RING := false][s % R2_RING := ReturnOk(next, s)],
                      sq[s % R2_RING := Term(next, s)], next, s)
  {
    var o, j := (s - SIGMA_WINDOW) % R2_RING, s % R2_RING;
    OwnerOfSlot(s - 1, s - SIGMA_WINDOW, R2_RING);
    var ok1, sq1 := ok[o := false][j := ReturnOk(next, s)], sq[j := Term(next, s)];
    forall i | 0 <= i < R2_RING
      ensures SlotHolds(ok1[i], sq1[i], next, s, Owner(s, i, R2_RING))
    {
      OwnerNext(s - 1, i, R2_RING);
      if i != j {
        var k := Owner(s - 1, i, R2_RING);
        SlotSurvives(i, k, s);
        assert SlotHolds(ok[i], sq[i], samples, s - 1, k);
        assert CellAt(next, k) == CellAt(samples, k) && CellAt(next, k - 1) == CellAt(samples, k - 1);
      }
    }
  }

  lemma SlotSurvives(i: int, k: int, s: int)
    requires 0 <= i < R2_RING && k == Owner(s - 1, i, R2_RING)
    ensures s - 1 - R2_RING < k <= s - 1
    ensures i == (s - SIGMA_WINDOW) % R2_RING <==> k == s - SIGMA_WINDOW
  {
  }

  class LateGrid {
    var mark: array<int>
    var ratio: array<int>
    var r2: array<int>
    var rOk: array<bool>
    var sumR2: int
    var nR: int
    var sec: int
    var curMark: int
    var curMarkWall: int
    var curPerp: int
    var curPerpWall: int
    ghost var log: map<int, Cell>

    ghost function Repr(): set<object>
      reads this
    {
      {mark, ratio, r2, rOk}
    }

    /** The abstract value of the grid. */
    ghost function View(): Grid
      reads this
    {
      Grid(sec, curMark, curMarkWall, curPerp, curPerpWall, log)
    }

    ghost predicate Shapes()
      reads this
    {
      && mark.Length == SHORT_RING && ratio.Length == SHORT_RING
      && r2.Length == R2_RING && rOk.Length == R2_RING
      && mark != ratio && mark != r2 && ratio != r2
    }

    /** The rings, the rolling sum and the rolling count describe the log up to second `at`. */
    ghost predicate Rings(at: int)
      reads this, Repr()
    {
      && Shapes() && 0 <= at
      && forall x: Seal :: Opened(x) ==> Holds(mark[..], ratio[..], rOk[..], r2[..], sumR2, nR, log, at)
    }

    ghost predicate Valid()
      reads this, Repr()
    {
      Rings(sec) && (sec == 0 ==> log == map[])
    }

    constructor ()
      ensures Valid() && fresh(Repr()) && View() == EMPTY
    {
      mark := new int[SHORT_RING](_ => 0);
      ratio := new int[SHORT_RING](_ => 0);
      r2 := new int[R2_RING](_ => 0);
      rOk := new bool[R2_RING](_ => false);
      sumR2, nR, sec := 0, 0, 0;
      curMark, curMarkWall, curPerp, curPerpWall := 0, 0, 0, 0;
      log := map[];
      new;
      StatsOfBlank(log, -SIGMA_WINDOW, 0);
    }

    method ClearRings()
      modifies this
      ensures fresh(Repr()) && Shapes()
      ensures sec == old(sec) && log == old(log)
      ensures curMark == old(curMark) && curMarkWall == old(curMarkWall)
      ensures curPerp == old(curPerp) && curPerpWall == old(curPerpWall)
      ensures forall i :: 0 <= i < SHORT_RING ==> mark[i] == 0 && ratio[i] == 0
      ensures forall i :: 0 <= i < R2_RING ==> !rOk[i]
      ensures sumR2 == 0 && nR == 0
    {
      mark := new int[SHORT_RING](_ => 0);
      ratio := new int[SHORT_RING](_ => 0);
      r2 := new int[R2_RING](_ => 0);
      rOk := new bool[R2_RING](_ => false);
      sumR2, nR := 0, 0;
    }

    /** What the short rings hold, slot by slot. */
    lemma ShortSlots()
      requires Valid()
      ensures ShortHolds(mark[..], ratio[..], log, sec)
    {
      assert Opened(Seal);
    }

    /** What the totals and the return ring hold. */
    lemma Totals()
      requires Valid()
      ensures sumR2 == SumR2(log, sec - SIGMA_WINDOW, sec) && nR == CountR(log, sec - SIGMA_WINDOW, sec)
      ensures RingHolds(rOk[..], r2[..], log, sec)
    {
      assert Opened(Seal);
    }

    /** Blank rings describe a log whose window is blank. */
    lemma BlankRings(at: int)
      requires Shapes() && 0 <= at
      requires forall s :: s in log ==> 1 <= s <= at
      requires forall s :: at - SIGMA_WINDOW <= s <= at ==> CellAt(log, s) == Cell(0, 0)
      requires forall i :: 0 <= i < SHORT_RING ==> mark[i] == 0 && ratio[i] == 0
      requires forall i :: 0 <= i < R2_RING ==> !rOk[i]
      requires sumR2 == 0 && nR == 0
      ensures Rings(at)
    {
      StatsOfBlank(log, at - SIGMA_WINDOW, at);
    }

    /** Samples one second: the rings, the sum and the count move to `s`. */
    method FillSecond(s: int)
      requires Rings(s - 1) && 1 <= s
      modifies this`sumR2, this`nR, this`log, mark, ratio, r2, rOk
      ensures Rings(s)
      ensures log == old(log)[s := CellOf(old(View()), s)]
    {
      assert Opened(Seal);
      var t := s * SEC;
      var m := if curMark > 0 && curMarkWall <= t && t - curMarkWall < MARK_FRESH then curMark else 0;
      var p := if curPerp > 0 && curPerpWall <= t && t - curPerpWall < PERP_FRESH then curPerp else 0;
      ghost var next := log[s := CellOf(View(), s)];
      ShortRolls(mark[..], ratio[..], log, next, s);
      RingRolls(rOk[..], r2[..], log, next, s);
      StatsRoll(log, next[s], s);
      var prev := FillShort(s, m, p);
      FillReturns(s, m, prev, next);
      log := next;
    }

    /** The short rings' half of a fill; the mark of the second before, read first. */
    method FillShort(s: int, m: int, p: int) returns (prev: int)
      requires Shapes()
      modifies mark, ratio
      ensures prev == old(mark[(s - 1) % SHORT_RING])
      ensures mark[..] == old(mark[..])[s % SHORT_RING := m]
      ensures ratio[..] == old(ratio[..])[s % SHORT_RING := RatioOf(m, p)]
    {
      var i := s % SHORT_RING;
      prev := mark[(s + SHORT_RING - 1) % SHORT_RING];
      assert (s + SHORT_RING - 1) % SHORT_RING == (s - 1) % SHORT_RING;
      mark[i] := m;
      ratio[i] := if m > 0 && p > 0 then m * 2_000_000_000 / p else 0;
    }

    /** The return ring's half: the second leaving the window is subtracted, the slot of `s` is
        overwritten and its return, if there is one, added. */
    method FillReturns(s: int, m: int, prev: int, ghost next: map<int, Cell>)
      requires 1 <= s && Shapes()
      requires CellAt(next, s).mark == m && CellAt(next, s - 1).mark == prev
      requires s < SIGMA_WINDOW ==> !rOk[(s - SIGMA_WINDOW) % R2_RING]
      modifies this`sumR2, this`nR, r2, rOk
      ensures var o := (s - SIGMA_WINDOW) % R2_RING;
              && rOk[..] == old(rOk[..])[o := false][s % R2_RING := ReturnOk(next, s)]
              && r2[..] == old(r2[..])[s % R2_RING := Term(next, s)]
              && sumR2 == old(sumR2 - (if rOk[o] then r2[o] else 0)) + Term(next, s)
              && nR == old(nR - (if rOk[o] then 1 else 0)) + (if ReturnOk(next, s) then 1 else 0)
    {
      ghost var ok0, sq0 := rOk[..], r2[..];
      if s >= SIGMA_WINDOW {
        var o := (s - SIGMA_WINDOW) % R2_RING;
        if rOk[o] {
          sumR2 := sumR2 - r2[o];
          nR := nR - 1;
          rOk[o] := false;
        }
      }
      assert rOk[..] == ok0[(s - SIGMA_WINDOW) % R2_RING := false];
      var j := s % R2_RING;
      rOk[j] := false;
      r2[j] := 0;
      if m > 0 && prev > 0 {
        var r := (m - prev) * 1_000_000_000 / prev;
        var sq := Min(r * r, I64_MAX);
        r2[j] := sq;
        rOk[j] := true;
        sumR2 := sumR2 + sq;
        nR := nR + 1;
      }
      assert r2[..] == sq0[j := Term(next, s)];
    }

    /** The fill loop: one second after the other. */
    method FillTo(target: int)
      requires Rings(sec) && sec <= target
      modifies this`sec, this`sumR2, this`nR, this`log, mark, ratio, r2, rOk
      ensures Rings(target) && sec == target
      ensures log == FillLog(old(View()), target)
    {
      ghost var g := View();
      var s := sec + 1;
      while s <= target
        invariant sec + 1 <= s <= target + 1 && sec == g.sec
        invariant Rings(s - 1)
        invariant log == FillLog(g, s - 1)
      {
        FillSecond(s);
        s := s + 1;
      }
      sec := target;
    }

    /** The gap path: every second up to the one before `target` is blank. */
    method Skip(target: int)
      requires Rings(sec) && target - sec > R2_RING
      modifies this
      ensures fresh(Repr()) && Rings(sec)
      ensures View() == old(View()).(sec := target - 1,
                log := old(log) + (map k | old(sec) < k < target :: Blank(k)))
    {
      assert Opened(Seal);
      ClearRings();
      ghost var sec0 := sec;
      sec := target - 1;
      log := log + (map k | sec0 < k < target :: Blank(k));
      BlankRings(sec);
    }

    /** The first fill: the grid begins one second before its target. */
    method Start(target: int)
      requires Valid() && sec == 0
      modifies this`sec
      ensures Rings(sec) && sec == Max(target - 1, 0)
    {
      assert Opened(Seal);
      StatsOfBlank(log, -SIGMA_WINDOW, 0);
      sec := Max(target - 1, 0);
      BlankRings(sec);
    }

    /** Fills every second up to `target`, or jumps a gap wider than the return ring. */
    method AdvanceTo(target: int)
      requires Valid()
      modifies this, Repr()
      ensures Valid() && fresh(Repr() - old(Repr()))
      ensures View() == Advance(true, old(View()), target)
    {
      if sec == 0 {
        if curMark <= 0 {
          return;
        }
        Start(target);
      }
      if target <= sec {
        return;
      }
      ghost var g := View();
      if target - sec > R2_RING {
        Skip(target);
        FillTo(target);
        assert View() == Jumped(g, target);
      } else {
        FillTo(target);
      }
    }

    method OnMark(wall: int, px: int)
      requires Valid()
      modifies this, Repr()
      ensures Valid() && fresh(Repr() - old(Repr()))
      ensures View() == Step(true, old(View()), Mark(wall, px))
    {
      if px <= 0 {
        return;
      }
      AdvanceTo(Max(wall - 1, 0) / SEC);
      curMark := px;
      curMarkWall := wall;
    }

    method OnPerp(wall: int, sum: int)
      requires Valid()
      modifies this, Repr()
      ensures Valid() && fresh(Repr() - old(Repr()))
      ensures View() == Step(true, old(View()), Perp(wall, sum))
    {
      if sum <= 0 {
        return;
      }
      AdvanceTo(Max(wall - 1, 0) / SEC);
      curPerp := sum;
      curPerpWall := wall;
    }
  }

  /** Replays a history on a fresh grid, as the parity fixture does. */
  method Replay(h: seq<Event>) returns (grid: LateGrid)
    ensures fresh(grid) && grid.Valid() && grid.View() == Run(true, h)
  {
    grid := new LateGrid();
    for i := 0 to |h|
      invariant fresh(grid) && fresh(grid.Repr()) && grid.Valid()
      invariant grid.View() == Run(true, h[..i])
    {
      assert h[..i + 1][..i] == h[..i] && h[..i + 1][i] == h[i];
      match h[i] {
        case Mark(wall, px) => grid.OnMark(wall, px);
        case Perp(wall, sum) => grid.OnPerp(wall, sum);
        case Query(wall) => grid.AdvanceTo(wall / SEC);
      }
    }
    assert h[..|h|] == h;
  }
}
