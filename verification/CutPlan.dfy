/** The cut planner: complete two-hour windows inside [A, B), one cut per stratum, and the spread
    rule, checked before a byte moves. Strata are exact fractions of the window. */
module CutPlan {
  import opened Options
  import opened Fixed
  import opened Sorting

  const WINDOW_NS: int := 7_200_000_000_000
  const SPAN_HOLDS: int := 30
  const TAPE_HOLDS: int := 20
  const PHASE_DIV: int := 4
  const MIN_STRATA: int := 8

  datatype Run = Run(version: int, epoch: int, local: bool, span: int, windows: int, bytes: int)

  datatype Cut = Cut(run: Run, from: int, upto: int, start: int, local: bool)

  function Length(c: Cut): int { c.upto - c.from }

  function End(c: Cut): int { c.start + Length(c) }

  // -- candidates --------------------------------------------------------

  function LocalCut(run: Run): Cut { Cut(run, 0, run.span + 1, run.epoch, true) }

  function WindowCut(run: Run, k: int): Cut {
    Cut(run, k * WINDOW_NS, (k + 1) * WINDOW_NS, run.epoch + k * WINDOW_NS, false)
  }

  predicate Inside(c: Cut, a: int, b: int) { a <= c.start && End(c) <= b }

  /** The first `k` windows of a run that lie inside [a, b). */
  function Windows(run: Run, k: int, a: int, b: int): seq<Cut>
    decreases k
  {
    if k <= 0 then []
    else Windows(run, k - 1, a, b) + (if Inside(WindowCut(run, k - 1), a, b) then [WindowCut(run, k - 1)] else [])
  }

  function OfRun(run: Run, a: int, b: int): seq<Cut> {
    if run.version < 3 then []
    else if run.local then
      (if run.span < WINDOW_NS && Inside(LocalCut(run), a, b) then [LocalCut(run)] else [])
    else Windows(run, run.windows, a, b)
  }

  function Candidates(listing: seq<Run>, a: int, b: int): seq<Cut> {
    if listing == [] then [] else Candidates(listing[..|listing| - 1], a, b) + OfRun(listing[|listing| - 1], a, b)
  }

  /** What a candidate is: a whole local run shorter than a window, or a complete window of a
      remote one, of a version 3 root, inside [a, b). */
  ghost predicate IsCandidate(listing: seq<Run>, a: int, b: int, c: Cut) {
    && c.run in listing && c.run.version >= 3 && Inside(c, a, b)
    && if c.run.local then c.run.span < WINDOW_NS && c == LocalCut(c.run)
       else exists k :: 0 <= k < c.run.windows && c == WindowCut(c.run, k)
  }

  lemma {:induction false} WindowsAre(run: Run, k: int, a: int, b: int, c: Cut)
    ensures c in Windows(run, k, a, b) <==>
              Inside(c, a, b) && exists j :: 0 <= j < k && c == WindowCut(run, j)
    decreases k
  {
    if k > 0 {
      WindowsAre(run, k - 1, a, b, c);
    }
  }

  lemma {:induction false} CandidatesAre(listing: seq<Run>, a: int, b: int, c: Cut)
    ensures c in Candidates(listing, a, b) <==> IsCandidate(listing, a, b, c)
  {
    if listing != [] {
      var rest, last := listing[..|listing| - 1], listing[|listing| - 1];
      assert listing == rest + [last];
      CandidatesAre(rest, a, b, c);
      WindowsAre(last, last.windows, a, b, c);
    }
  }

  /** A candidate in its own terms: the part `[from, upto)` of a version 3 run of the listing, starting where
      that part does, inside [a, b); the whole of a local run shorter than a window, or one complete window
      of a remote one. */
  lemma CandidatesMean(listing: seq<Run>, a: int, b: int, c: Cut)
    ensures c in Candidates(listing, a, b) <==>
            && c.run in listing && c.run.version >= 3 && c.local == c.run.local
            && c.start == c.run.epoch + c.from && a <= c.start && c.start + (c.upto - c.from) <= b
            && (c.run.local ==> c.from == 0 && c.upto == c.run.span + 1 && c.run.span < WINDOW_NS)
            && (!c.run.local ==> c.upto == c.from + WINDOW_NS && c.from % WINDOW_NS == 0
                                 && 0 <= c.from < c.run.windows * WINDOW_NS)
  {
    CandidatesAre(listing, a, b, c);
    if !c.run.local {
      WindowCutsMean(c);
    }
  }

  lemma WindowCutsMean(c: Cut)
    ensures (exists k :: 0 <= k < c.run.windows && c == WindowCut(c.run, k)) <==>
            && !c.local && c.start == c.run.epoch + c.from && c.upto == c.from + WINDOW_NS
            && c.from % WINDOW_NS == 0 && 0 <= c.from < c.run.windows * WINDOW_NS
  {
    if exists k :: 0 <= k < c.run.windows && c == WindowCut(c.run, k) {
      var k :| 0 <= k < c.run.windows && c == WindowCut(c.run, k);
      MulMono(k + 1, c.run.windows, WINDOW_NS);
      DivUnique(c.from, WINDOW_NS, k);
    }
    if c.from % WINDOW_NS == 0 && 0 <= c.from < c.run.windows * WINDOW_NS {
      var k := c.from / WINDOW_NS;
      DivBelow(c.from, WINDOW_NS, c.run.windows);
      DivAtLeast(c.from, WINDOW_NS, 0);
      assert c.from == k * WINDOW_NS;
      assert WindowCut(c.run, k).from == c.from;
    }
  }

  method CollectCandidates(listing: seq<Run>, a: int, b: int) returns (out: seq<Cut>)
    ensures out == Candidates(listing, a, b)
    ensures forall c :: c in out <==> IsCandidate(listing, a, b, c)
  {
    out := [];
    for i := 0 to |listing|
      invariant out == Candidates(listing[..i], a, b)
    {
      assert listing[..i + 1][..i] == listing[..i];
      var run := listing[i];
      if run.version >= 3 {
        if run.local {
          if run.span < WINDOW_NS && a <= run.epoch && run.epoch + run.span + 1 <= b {
            out := out + [LocalCut(run)];
          }
        } else {
          ghost var before := out;
          var k := 0;
          while k < run.windows
            invariant 0 <= k && (k <= run.windows || k == 0)
            invariant out == before + Windows(run, k, a, b)
          {
            var start := run.epoch + k * WINDOW_NS;
            if a <= start && start + WINDOW_NS <= b {
              out := out + [WindowCut(run, k)];
            }
            k := k + 1;
          }
          assert Windows(run, k, a, b) == OfRun(run, a, b);
        }
      }
    }
    assert listing[..|listing|] == listing;
    forall c
      ensures c in out <==> IsCandidate(listing, a, b, c)
    {
      CandidatesAre(listing, a, b, c);
    }
  }

  // -- the spread rule ---------------------------------------------------

  function Tape(cuts: seq<Cut>): int {
    if cuts == [] then 0 else Tape(cuts[..|cuts| - 1]) + Length(cuts[|cuts| - 1])
  }

  function Phases(cuts: seq<Cut>, hold: int): seq<int>
    requires hold > 0
  {
    seq(|cuts|, i requires 0 <= i < |cuts| => cuts[i].start % hold)
  }

  ghost predicate NoWideGap(sorted: seq<int>, gap: int) {
    forall i :: 1 <= i < |sorted| ==> sorted[i] - sorted[i - 1] <= gap
  }

  ghost predicate SpreadOk(cuts: seq<Cut>, hold: int)
    requires hold > 0
  {
    && cuts != []
    && End(cuts[|cuts| - 1]) - cuts[0].start >= SPAN_HOLDS * hold
    && Tape(cuts) >= TAPE_HOLDS * hold
    && NoWideGap(Sort(IntLe, Phases(cuts, hold)), hold / PHASE_DIV)
  }

  method SpreadCheck(cuts: seq<Cut>, hold: int) returns (ok: bool)
    requires hold > 0
    ensures ok <==> SpreadOk(cuts, hold)
  {
    if cuts == [] {
      return false;
    }
    var first := cuts[0].start;
    var last := cuts[|cuts| - 1].start + (cuts[|cuts| - 1].upto - cuts[|cuts| - 1].from);
    if last - first < SPAN_HOLDS * hold {
      return false;
    }
    var tape := 0;
    for i := 0 to |cuts|
      invariant tape == Tape(cuts[..i])
    {
      assert cuts[..i + 1][..i] == cuts[..i];
      tape := tape + (cuts[i].upto - cuts[i].from);
    }
    assert cuts[..|cuts|] == cuts;
    if tape < TAPE_HOLDS * hold {
      return false;
    }
    var phases := Sort(IntLe, Phases(cuts, hold));
    var i := 1;
    while i < |phases|
      invariant 1 <= i
      invariant forall j :: 1 <= j < i && j < |phases| ==> phases[j] - phases[j - 1] <= hold / PHASE_DIV
    {
      if phases[i] - phases[i - 1] > hold / PHASE_DIV {
        return false;
      }
      i := i + 1;
    }
    return true;
  }

  /** Some phase lies in `[x, x + gap)`. */
  ghost predicate Served(phases: seq<int>, gap: int, x: int) {
    exists p :: p in phases && x <= p < x + gap
  }

  /** What the gap rule means for the phases themselves, in whatever order: above the least phase
      and up to the greatest, no stretch of a quarter hold is without one. */
  lemma GapMeans(phases: seq<int>, gap: nat, lo: int, hi: int)
    requires phases != [] && lo in phases && hi in phases && forall p :: p in phases ==> lo <= p <= hi
    ensures NoWideGap(Sort(IntLe, phases), gap) <==> forall x :: lo < x <= hi ==> Served(phases, gap, x)
  {
    var v := Sort(IntLe, phases);
    SortLaw(IntLe, phases);
    SortMembers(IntLe, phases);
    Ends(v, lo, hi);
    SameServed(phases, v, gap);
    if NoWideGap(v, gap) {
      NarrowServes(v, gap);
    } else {
      WideMisses(v, gap);
    }
  }

  lemma SameServed(a: seq<int>, b: seq<int>, gap: int)
    requires forall p :: p in a <==> p in b
    ensures forall x :: Served(a, gap, x) <==> Served(b, gap, x)
  {
  }

  lemma NarrowServes(v: seq<int>, gap: nat)
    requires v != [] && SortedBy(IntLe, v) && NoWideGap(v, gap)
    ensures forall x :: v[0] < x <= v[|v| - 1] ==> Served(v, gap, x)
  {
    forall x | v[0] < x <= v[|v| - 1]
      ensures Served(v, gap, x)
    {
      var i := Above(v, x);
      assert v[i] in v;
    }
  }

  lemma WideMisses(v: seq<int>, gap: nat)
    requires v != [] && SortedBy(IntLe, v) && !NoWideGap(v, gap)
    ensures exists x :: v[0] < x <= v[|v| - 1] && !Served(v, gap, x)
  {
    var i :| 1 <= i < |v| && v[i] - v[i - 1] > gap;
    GapUnserved(v, gap, i);
    assert 0 < i - 1 ==> IntLe(v[0], v[i - 1]);
    assert i < |v| - 1 ==> IntLe(v[i], v[|v| - 1]);
    assert !Served(v, gap, v[i - 1] + 1);
  }

  lemma GapUnserved(v: seq<int>, gap: nat, i: nat)
    requires SortedBy(IntLe, v) && 1 <= i < |v| && v[i] - v[i - 1] > gap
    ensures forall p :: p in v ==> !(v[i - 1] + 1 <= p < v[i - 1] + 1 + gap)
  {
    forall p | p in v
      ensures !(v[i - 1] + 1 <= p < v[i - 1] + 1 + gap)
    {
      var j :| 0 <= j < |v| && v[j] == p;
      assert j < i - 1 ==> IntLe(v[j], v[i - 1]);
      assert i < j ==> IntLe(v[i], v[j]);
    }
  }

  lemma Ends(v: seq<int>, lo: int, hi: int)
    requires v != [] && SortedBy(IntLe, v) && lo in v && hi in v && forall p :: p in v ==> lo <= p <= hi
    ensures v[0] == lo && v[|v| - 1] == hi
  {
    var i :| 0 <= i < |v| && v[i] == lo;
    var j :| 0 <= j < |v| && v[j] == hi;
    assert v[0] in v && v[|v| - 1] in v;
    assert 0 < i ==> IntLe(v[0], v[i]);
    assert j < |v| - 1 ==> IntLe(v[j], v[|v| - 1]);
  }

  /** The first sorted phase at or above `x`. */
  lemma {:induction false} Above(v: seq<int>, x: int) returns (i: nat)
    requires SortedBy(IntLe, v) && v != [] && v[0] < x <= v[|v| - 1]
    ensures 1 <= i < |v| && v[i - 1] < x <= v[i]
  {
    i := 1;
    while v[i] < x
      invariant 1 <= i < |v| && v[i - 1] < x
      decreases |v| - i
    {
      i := i + 1;
    }
  }

  // -- strata ------------------------------------------------------------

  const NS_PER_MS: int := 1_000_000

  function StrataCount(hold: int): int {
    Max(MIN_STRATA, (TAPE_HOLDS * hold + WINDOW_NS - 1) / WINDOW_NS)
  }

  /** The least count from the minimum on whose windows hold the tape the plan needs. */
  lemma StrataLeast(hold: int, n: int)
    ensures MIN_STRATA <= StrataCount(hold) && TAPE_HOLDS * hold <= StrataCount(hold) * WINDOW_NS
    ensures MIN_STRATA <= n && TAPE_HOLDS * hold <= n * WINDOW_NS ==> StrataCount(hold) <= n
  {
    var need := TAPE_HOLDS * hold;
    var q := (need + WINDOW_NS - 1) / WINDOW_NS;
    assert need + WINDOW_NS - 1 < (q + 1) * WINDOW_NS;
    MulMono(q, StrataCount(hold), WINDOW_NS);
    if need <= n * WINDOW_NS {
      DivBelow(need + WINDOW_NS - 1, WINDOW_NS, n + 1);
    }
  }

  /** The window [a, b) in `n` equal strata; `start` is in the `s`-th. */
  predicate InStratum(start: int, a: int, b: int, n: int, s: int) {
    s * (b - a) <= n * (start - a) < (s + 1) * (b - a)
  }

  /** The strata partition the window: a start inside it is in exactly one of them, and no other start is in
      any. */
  lemma StrataPartition(start: int, a: int, b: int, n: int)
    requires a < b && 0 < n
    ensures a <= start < b <==> exists s :: 0 <= s < n && InStratum(start, a, b, n, s)
    ensures forall s, t :: InStratum(start, a, b, n, s) && InStratum(start, a, b, n, t) ==> s == t
  {
    forall s, t | InStratum(start, a, b, n, s) && InStratum(start, a, b, n, t)
      ensures s == t
    {
      StratumIs(start, a, b, n, s);
      StratumIs(start, a, b, n, t);
    }
    if a <= start < b {
      HasStratum(start, a, b, n);
    }
    forall s | 0 <= s < n && InStratum(start, a, b, n, s)
      ensures a <= start < b
    {
      StratumInside(start, a, b, n, s);
    }
  }

  lemma StratumIs(start: int, a: int, b: int, n: int, s: int)
    requires a < b && InStratum(start, a, b, n, s)
    ensures s == n * (start - a) / (b - a)
  {
    assert (s + 1) * (b - a) == s * (b - a) + (b - a);
    DivUnique(n * (start - a), b - a, s);
  }

  lemma HasStratum(start: int, a: int, b: int, n: int)
    requires a <= start < b && 0 < n
    ensures var s := n * (start - a) / (b - a); 0 <= s < n && InStratum(start, a, b, n, s)
  {
    var w, d := b - a, start - a;
    var x := n * d;
    DivLaw(x, w);
    MulMono(0, d, n);
    MulMono(d + 1, w, n);
    DivAtLeast(x, w, 0);
    assert x < n * w;
    DivBelow(x, w, n);
  }

  lemma StratumInside(start: int, a: int, b: int, n: int, s: int)
    requires a < b && 0 <= s < n && InStratum(start, a, b, n, s)
    ensures a <= start < b
  {
    var w := b - a;
    MulMono(0, s, w);
    MulMono(s + 1, n, w);
    Within(start - a, w, n);
  }

  lemma Within(d: int, w: int, n: int)
    requires 0 < n && 0 <= n * d < n * w
    ensures 0 <= d < w
  {
    if w <= d {
      MulMono(w, d, n);
    }
    if d < 0 {
      MulMono(d, -1, n);
    }
  }

  function Stratum(cands: seq<Cut>, a: int, b: int, n: int, s: int): seq<Cut> {
    if cands == [] then []
    else
      var c := cands[|cands| - 1];
      Stratum(cands[..|cands| - 1], a, b, n, s) + (if InStratum(c.start, a, b, n, s) then [c] else [])
  }

  /** The planner's preference: local first, then the larger run, the earlier start, the draw. */
  predicate Prefer(tie: Cut -> int, x: Cut, y: Cut) {
    if x.local != y.local then x.local
    else if x.run.bytes != y.run.bytes then x.run.bytes > y.run.bytes
    else if x.start != y.start then x.start < y.start
    else tie(x) <= tie(y)
  }

  function Order(tie: Cut -> int): (Cut, Cut) -> bool { (x, y) => Prefer(tie, x, y) }

  function Pick(cands: seq<Cut>, tie: Cut -> int, a: int, b: int, n: int, s: int): Option<Cut> {
    var here := Sort(Order(tie), Stratum(cands, a, b, n, s));
    if here == [] then None else Some(here[0])
  }

  lemma {:induction false} StratumAre(cands: seq<Cut>, a: int, b: int, n: int, s: int, c: Cut)
    ensures c in Stratum(cands, a, b, n, s) <==> c in cands && InStratum(c.start, a, b, n, s)
  {
    if cands != [] {
      StratumAre(cands[..|cands| - 1], a, b, n, s, c);
      assert cands == cands[..|cands| - 1] + [cands[|cands| - 1]];
    }
  }

  /** A stratum's pick is one of its candidates and none of them is preferred to it; there is no
      pick exactly when the stratum is empty. */
  lemma PickIsBest(cands: seq<Cut>, tie: Cut -> int, a: int, b: int, n: int, s: int)
    ensures var pick := Pick(cands, tie, a, b, n, s);
            && (pick.None? <==> forall c :: c in cands ==> !InStratum(c.start, a, b, n, s))
            && (pick.Some? ==>
                  && pick.value in cands && InStratum(pick.value.start, a, b, n, s)
                  && forall c :: c in cands && InStratum(c.start, a, b, n, s) ==> Prefer(tie, pick.value, c))
  {
    var here := Stratum(cands, a, b, n, s);
    var v := Sort(Order(tie), here);
    SortLaw(Order(tie), here);
    SortMembers(Order(tie), here);
    forall c
      ensures c in v <==> c in cands && InStratum(c.start, a, b, n, s)
    {
      StratumAre(cands, a, b, n, s, c);
    }
    if v != [] {
      FirstIsBest(tie, v);
    }
  }

  /** What is preferred: a local run; then the larger one; then the earlier start; then the draw. */
  lemma PickMeans(cands: seq<Cut>, tie: Cut -> int, a: int, b: int, n: int, s: int, c: Cut)
    requires c in cands && InStratum(c.start, a, b, n, s)
    ensures Pick(cands, tie, a, b, n, s).Some?
    ensures var p := Pick(cands, tie, a, b, n, s).value;
            && (c.local ==> p.local)
            && (c.local == p.local ==>
                  && c.run.bytes <= p.run.bytes
                  && (c.run.bytes == p.run.bytes ==>
                        p.start <= c.start && (p.start == c.start ==> tie(p) <= tie(c))))
  {
    PickIsBest(cands, tie, a, b, n, s);
  }

  lemma FirstIsBest(tie: Cut -> int, v: seq<Cut>)
    requires v != [] && SortedBy(Order(tie), v)
    ensures v[0] in v && forall c :: c in v ==> Prefer(tie, v[0], c)
  {
    forall c | c in v
      ensures Prefer(tie, v[0], c)
    {
      var i :| 0 <= i < |v| && v[i] == c;
      assert 0 < i ==> Order(tie)(v[0], v[i]);
    }
  }

  lemma PickOfStratum(cands: seq<Cut>, tie: Cut -> int, a: int, b: int, n: int, s: int)
    ensures var pick := Pick(cands, tie, a, b, n, s);
            pick.Some? ==> pick.value in cands && InStratum(pick.value.start, a, b, n, s)
  {
    PickIsBest(cands, tie, a, b, n, s);
  }

  /** The picks of the first `s` strata, in stratum order. */
  function Picks(cands: seq<Cut>, tie: Cut -> int, a: int, b: int, n: int, s: nat): seq<Cut> {
    if s == 0 then []
    else
      var pick := Pick(cands, tie, a, b, n, s - 1);
      Picks(cands, tie, a, b, n, s - 1) + (if pick.Some? then [pick.value] else [])
  }

  predicate StartLe(x: Cut, y: Cut) { x.start <= y.start }

  ghost predicate Ascending(cuts: seq<Cut>) {
    forall i, j :: 0 <= i < j < |cuts| ==> cuts[i].start < cuts[j].start
  }

  lemma StrataApart(x: int, y: int, a: int, b: int, n: int, s: int)
    requires 0 < n && n * (x - a) < s * (b - a) <= n * (y - a)
    ensures x < y
  {
    if y <= x {
      MulMono(y - a, x - a, n);
    }
  }

  /** Every pick starts before the `s`-th stratum does. */
  ghost predicate Below(picks: seq<Cut>, a: int, b: int, n: int, s: int) {
    forall i :: 0 <= i < |picks| ==> n * (picks[i].start - a) < s * (b - a)
  }

  lemma PickAscends(before: seq<Cut>, pick: Cut, a: int, b: int, n: int, s: int)
    requires 0 < n && a < b && Ascending(before) && Below(before, a, b, n, s)
    requires InStratum(pick.start, a, b, n, s)
    ensures Ascending(before + [pick]) && Below(before + [pick], a, b, n, s + 1) && Below(before, a, b, n, s + 1)
  {
    assert s * (b - a) < (s + 1) * (b - a);
    forall i | 0 <= i < |before|
      ensures before[i].start < pick.start
    {
      StrataApart(before[i].start, pick.start, a, b, n, s);
    }
  }

  lemma BelowMore(picks: seq<Cut>, a: int, b: int, n: int, s: int)
    requires a < b && Below(picks, a, b, n, s)
    ensures Below(picks, a, b, n, s + 1)
  {
    assert s * (b - a) < (s + 1) * (b - a);
  }

  ghost predicate InOrder(cands: seq<Cut>, picks: seq<Cut>, a: int, b: int, n: int, s: int) {
    Ascending(picks) && Below(picks, a, b, n, s) && forall c :: c in picks ==> c in cands
  }

  lemma PickKeepsOrder(cands: seq<Cut>, before: seq<Cut>, pick: Option<Cut>, a: int, b: int, n: int, s: int)
    requires 0 < n && a < b && InOrder(cands, before, a, b, n, s)
    requires pick.Some? ==> pick.value in cands && InStratum(pick.value.start, a, b, n, s)
    ensures InOrder(cands, before + (if pick.Some? then [pick.value] else []), a, b, n, s + 1)
  {
    if pick.Some? {
      PickAscends(before, pick.value, a, b, n, s);
    } else {
      BelowMore(before, a, b, n, s);
    }
  }

  lemma {:induction false} PicksAscend(cands: seq<Cut>, tie: Cut -> int, a: int, b: int, n: int, s: nat)
    requires 0 < n && a < b
    ensures InOrder(cands, Picks(cands, tie, a, b, n, s), a, b, n, s)
  {
    if s > 0 {
      PicksAscend(cands, tie, a, b, n, s - 1);
      PickOfStratum(cands, tie, a, b, n, s - 1);
      PickKeepsOrder(cands, Picks(cands, tie, a, b, n, s - 1), Pick(cands, tie, a, b, n, s - 1), a, b, n, s - 1);
    }
  }

  /** There are as many picks as strata exactly when no stratum is empty, and then the t-th pick is
      the t-th stratum's. */
  lemma {:induction false} PicksComplete(cands: seq<Cut>, tie: Cut -> int, a: int, b: int, n: int, s: nat)
    ensures var picks := Picks(cands, tie, a, b, n, s);
            && |picks| <= s
            && (|picks| == s ==> forall t :: 0 <= t < s ==> Pick(cands, tie, a, b, n, t) == Some(picks[t]))
            && (|picks| < s ==> exists t :: 0 <= t < s && Pick(cands, tie, a, b, n, t).None?)
  {
    if s > 0 {
      PicksComplete(cands, tie, a, b, n, s - 1);
    }
  }

  // -- overlaps ----------------------------------------------------------

  ghost predicate Disjoint(cuts: seq<Cut>) {
    forall i :: 1 <= i < |cuts| ==> End(cuts[i - 1]) <= cuts[i].start
  }

  /** Drops a cut that starts before the kept one before it ends. */
  method DropOverlaps(picked: seq<Cut>) returns (rows: seq<Cut>)
    ensures |rows| <= |picked| && Disjoint(rows)
    ensures |rows| == |picked| <==> Disjoint(picked)
    ensures |rows| == |picked| ==> rows == picked
  {
    rows := [];
    for i := 0 to |picked|
      invariant |rows| <= i && Disjoint(rows)
      invariant |rows| == i ==> rows == picked[..i]
      invariant |rows| < i ==> !Disjoint(picked)
    {
      if rows != [] && picked[i].start < End(rows[|rows| - 1]) {
        if |rows| == i {
          assert End(picked[i - 1]) > picked[i].start;
        }
      } else {
        rows := rows + [picked[i]];
      }
    }
  }

  // -- the plan ----------------------------------------------------------

  /** What every plan promises. */
  ghost predicate PlanLaw(listing: seq<Run>, a: int, b: int, hold: int, tie: Cut -> int, rows: seq<Cut>)
    requires hold > 0
  {
    var n := StrataCount(hold);
    && |rows| == n
    && (forall s :: 0 <= s < n ==> IsCandidate(listing, a, b, rows[s]) && InStratum(rows[s].start, a, b, n, s))
    && (forall i, j :: 0 <= i < j < n ==> rows[i].start < rows[j].start && End(rows[i]) <= rows[j].start)
    && (forall s, c :: 0 <= s < n && IsCandidate(listing, a, b, c) && InStratum(c.start, a, b, n, s) ==>
                         Prefer(tie, rows[s], c))
    && SpreadOk(rows, hold)
  }

  /** A plan has one preferred cut per stratum, in start order, pairwise disjoint, inside [A, B), and
      meets the spread rule. There is none exactly when the window or hold is empty, a stratum is
      empty, two picks overlap, or the spread rule fails. */
  method MakePlan(listing: seq<Run>, aMs: int, bMs: int, holdMs: int, tie: Cut -> int) returns (r: Option<seq<Cut>>)
    ensures var a, b, hold := aMs * NS_PER_MS, bMs * NS_PER_MS, holdMs * NS_PER_MS;
            var n := StrataCount(hold);
            && (r.Some? ==> hold > 0 && PlanLaw(listing, a, b, hold, tie, r.value))
            && (r.Some? <==>
                  && a < b && hold > 0
                  && (var picks := Picks(Candidates(listing, a, b), tie, a, b, n, n);
                      |picks| == n && Disjoint(picks) && SpreadOk(picks, hold)))
  {
    var a, b, hold := aMs * NS_PER_MS, bMs * NS_PER_MS, holdMs * NS_PER_MS;
    if b <= a || hold <= 0 {
      return None;
    }
    var n := StrataCount(hold);
    var cands := CollectCandidates(listing, a, b);
    var picked := PickStrata(cands, tie, a, b, n);
    PicksComplete(cands, tie, a, b, n, n);
    PicksAscend(cands, tie, a, b, n, n);
    SortOfSorted(StartLe, picked);
    picked := Sort(StartLe, picked);
    var rows := DropOverlaps(picked);
    if |rows| < n {
      return None;
    }
    var ok := SpreadCheck(rows, hold);
    if !ok {
      return None;
    }
    PlanHolds(listing, a, b, hold, tie, rows);
    return Some(rows);
  }

  method PickStrata(cands: seq<Cut>, tie: Cut -> int, a: int, b: int, n: int) returns (picked: seq<Cut>)
    requires 0 < n
    ensures picked == Picks(cands, tie, a, b, n, n)
  {
    picked := [];
    var s := 0;
    while s < n
      invariant 0 <= s <= n
      invariant picked == Picks(cands, tie, a, b, n, s)
    {
      var here := Sort(Order(tie), Stratum(cands, a, b, n, s));
      if here != [] {
        picked := picked + [here[0]];
      }
      s := s + 1;
    }
  }

  lemma PlanHolds(listing: seq<Run>, a: int, b: int, hold: int, tie: Cut -> int, rows: seq<Cut>)
    requires a < b && hold > 0 && |rows| == StrataCount(hold)
    requires rows == Picks(Candidates(listing, a, b), tie, a, b, |rows|, |rows|)
    requires Disjoint(rows) && SpreadOk(rows, hold)
    ensures PlanLaw(listing, a, b, hold, tie, rows)
  {
    var n, cands := |rows|, Candidates(listing, a, b);
    PicksComplete(cands, tie, a, b, n, n);
    PicksAscend(cands, tie, a, b, n, n);
    forall s | 0 <= s < n
      ensures IsCandidate(listing, a, b, rows[s]) && InStratum(rows[s].start, a, b, n, s)
    {
      PickIsBest(cands, tie, a, b, n, s);
      CandidatesAre(listing, a, b, rows[s]);
    }
    forall i, j | 0 <= i < j < n
      ensures rows[i].start < rows[j].start && End(rows[i]) <= rows[j].start
    {
      assert End(rows[i + 1 - 1]) <= rows[i + 1].start;
    }
    forall s, c | 0 <= s < n && IsCandidate(listing, a, b, c) && InStratum(c.start, a, b, n, s)
      ensures Prefer(tie, rows[s], c)
    {
      PickIsBest(cands, tie, a, b, n, s);
      CandidatesAre(listing, a, b, c);
    }
  }
}
