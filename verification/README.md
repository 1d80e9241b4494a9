# Verified model of the multi-venue worker's hard core

This project models four parts of the worker and of its scripts in Dafny, and proves what each of
them promises over every input, every run or every reachable state.

1. The BIN15 integer pricer and its late-window grid (`Pricer`, `Settlement`, `PriceLaws`,
   `RecalTables`, `LateModel`, `LateSampler`, `LateGrids`, `LateFairs`, `LateLaws`). Prices, tables
   and floors are integers as in the source. The late grid is a class over ring arrays; its meaning is a log of seconds, and the
   meaning of that log is a sampler read directly off the event history.
2. The archive's commit protocol (`Archive`). The bucket and the progress file are maps; `fuel` is the
   number of writes left before the process dies, so every crash point is a value of it.
3. The cut feeder (`CutFeed`, `CutTrace`, `CutPlan`). Feeder and consumer are interleaved step by step.
4. The candle store and the evidence stores (`CandleStore`, `CandleRuns`, `Derive`, `Fill`, `Pacer`,
   `Evidence`, `Relabel`, `RelabelRuns`). Tables are maps in a class; the venue is a sequence of bars
   that grows at its end and whose bars change until they close; a store file is a sequence of rows.

`Fixed`, `Sorting`, `Options` and `Sealing` are shared helpers. `dafny verify dfyconfig.toml` checks
everything.

Some promises are not true of the code as it stands. Each has a concrete input and the exact
condition under which it does hold:

- Fair value rises with the mark only up to twice the strike, where the second-order log turns over
  (`Pricer.FairValueRisesExactly`, `Pricer.FairValueFallsPastTwiceStrike`).
- "Horizon under a third of the window" tells inside from outside for every window except those of
  one or two nanoseconds (`Settlement.ThirdSeparatesWindow`).
- A late-grid query at an exact second, followed by a mark or a perp quote stamped at that same
  instant, leaves that second with the older sample (`LateSampler.MarkAtQueriedInstant`,
  `LateSampler.PerpAtQueriedInstant`). Over every history in time order a second holds the sample as
  the history stood when it was filled (`LateSampler.FilledAsOf`). It holds the sample by the whole
  history exactly when the quotes that came too late repeat it (`LateSampler.RightExactly`).
- `merge` documents that the law is corrected and never reverted. `relabel_ledger` looks for a
  collision among venue keys only, so a converted row can land on the stamp of an engine row no
  capture covers. The merge reads the file into a dict, where the last row under a key wins, and a
  relabel lists the venue rows first. If the converted row stood before the uncovered one, the next
  merge reverts it (`RelabelRuns.LawKept`, `RelabelRuns.ClashReverts`); if it stood behind, a further
  relabel that writes the file turns the two round and the merge after that reverts it
  (`RelabelRuns.SecondRelabelReverts`). The lane writes only if something changed, so a file is safe
  from that when every venue row in it is settled and its engine rows share one stamp: a relabel then
  moves all of them or writes nothing. So the law is kept exactly when there is no such pair, or none
  of the first kind and the file is like that (`RelabelRuns.LawKeptThroughRelabel` for one relabel and
  merge, `RelabelRuns.LawKeptOverRuns` for every run).
- A fetched bar that had closed is kept for good only while no purge takes it for a future bar, which
  a clock that steps back far enough makes one do (`CandleRuns.FrozenExactly`,
  `CandleRuns.ClockStepsBack`).
- The fetched values of a bar behind the frontier are the venue's final ones unless a cycle's clock
  was ahead of the venue's: a bar still open there is then taken as closed, and its first values stay
  (`Fill.Cycles`, `Fill.AheadSticks`).

## Model

| member | source | states |
|---|---|---|
| Pricer.WrapI64 | claude-worker/src/claude_worker/bin15_ref.py:92-94 | the two's-complement value of any integer: in range, and congruent to it modulo 2^64 |
| Pricer.SecondOrderVertex | claude-worker/src/claude_worker/bin15_ref.py:180-201 | the truncated log expansion is a parabola with its top at twice the strike, floor included |
| Pricer.SecondOrderRises | claude-worker/src/claude_worker/bin15_ref.py:180-201 | it does not fall up to its top |
| Pricer.MoneynessBounded | claude-worker/src/claude_worker/bin15_ref.py:180-201 | when it is defined, log moneyness is within the range the later i64 wrap relies on |
| Pricer.MoneynessPeaksAtTwiceStrike | claude-worker/src/claude_worker/bin15_ref.py:180-201 | a mark is worth at least every lower mark exactly when it is at most twice the strike, up to the flat top the floor leaves |
| Pricer.FairValueDefined | claude-worker/src/claude_worker/bin15_ref.py:242-265 | fair value exists exactly under its refusal guards, and there the i64 wrap is the identity |
| Pricer.WrapNeverActs | claude-worker/src/claude_worker/bin15_ref.py:92-94 | the wrap is the identity on every quotient the guards let through |
| Pricer.FairOfDMonotone | claude-worker/src/claude_worker/bin15_ref.py:150-239 | both interpolations and both clamps keep order: raw and recalibrated price do not fall in d, and stay in [0, 1e6] |
| Pricer.FairValueMonotone | claude-worker/src/claude_worker/bin15_ref.py:242-265 | for marks up to twice the strike fair value is defined together and does not fall in the mark |
| Pricer.FairValueIsProbability | claude-worker/src/claude_worker/bin15_ref.py:232-265 | every price is in [0, 1e6] |
| Pricer.FairValueBelow | claude-worker/src/claude_worker/bin15_ref.py:242-265 | nor up to the flat top the floor leaves past twice the strike |
| Pricer.FairValueFallsPastTwiceStrike | claude-worker/src/claude_worker/bin15_ref.py:180-265 | past the flat top every mark that prices at all is priced, on lawful tables, below twice the strike |
| Pricer.FairValueRisesExactly | claude-worker/src/claude_worker/bin15_ref.py:180-265 | a mark is priced at least as high as every lower mark, on every lawful table and at every time and volatility, exactly up to the flat top, or where the clamp refuses to price it |
| PriceLaws.HorizonLaw | claude-worker/src/claude_worker/bin15_ref.py:309-324 | the horizon by its inequalities: the time left less two thirds of the window ahead of it, the cube of the time left over three squares of the window inside |
| PriceLaws.DenominatorLaw | claude-worker/src/claude_worker/bin15_ref.py:221-229 | the denominator is the floor root of variance times horizon over a minute, the product saturated at 128 bits |
| PriceLaws.PriceAtLaw | claude-worker/src/claude_worker/bin15_ref.py:115-239 | the price is on the Phi table's line at d, its complement below zero, and on the line of the recalibration table of the horizon's phase |
| PriceLaws.FairValueLaw | claude-worker/src/claude_worker/bin15_ref.py:180-265 | a fair value by its inequalities: excess over the strike, second-order logarithm, denominator, d within its clamp, and both tables |
| PriceLaws.TwapAheadLaw | claude-worker/src/claude_worker/bin15_ref.py:358-384 | ahead of the window it is that of the horizon, not of the time left |
| PriceLaws.TwapInsideLaw | claude-worker/src/claude_worker/bin15_ref.py:327-394 | inside, that of the settlement's moneyness, and the clamp on its side when nothing is left uncertain |
| PriceLaws.TwapInsideDefined | claude-worker/src/claude_worker/bin15_ref.py:327-394 | inside the window it is priced exactly when prices and variance are positive, no step of the moneyness leaves 128 bits and the moneyness is within its clamp |
| Settlement.TwoThirdsIsFloor | claude-worker/src/claude_worker/bin15_ref.py:309-324 | the split form of two thirds is floor(2W/3) |
| Settlement.HorizonMonotone | claude-worker/src/claude_worker/bin15_ref.py:309-324 | the pricing horizon does not fall in time to expiry, for every window |
| Settlement.ThirdSeparatesWindow | claude-worker/src/claude_worker/bin15_ref.py:309-324 | "horizon under W/3 means inside the window" holds at every time exactly for windows of zero or at least three nanoseconds |
| Settlement.WindowTauSeparates | claude-worker/src/claude_worker/bin15_ledger.py:120-128 | for the 15-minute family's window the horizon is under the ledger's bound exactly inside the window, and equal to it at the opening |
| Settlement.AccumulateIsIntegral | claude-worker/src/claude_worker/bin15_ref.py:291-306 | accumulating the segments of any chained path is the instant-by-instant integral over the part of the window it reaches, with that part's length |
| Settlement.AccumulateOverWindow | claude-worker/src/claude_worker/bin15_ref.py:291-306 | a path over the whole window accumulates its integral and exactly its length |
| Settlement.SplitInvariant | claude-worker/src/claude_worker/bin15_ref.py:291-306 | two ways of cutting one price path accumulate the same area and time |
| Settlement.AverageBetweenExtremes | claude-worker/src/claude_worker/bin15_ref.py:291-306 | the average lies between the least and the greatest price in force |
| Settlement.ZeroTimeLeftSettles | claude-worker/src/claude_worker/bin15_ref.py:327-394 | with no time left the price sits at the clamp on the side of "area >= W * strike" |
| Settlement.TwapWrapNeverActs | claude-worker/src/claude_worker/bin15_ref.py:327-394 | inside the window too, the i64 wrap is the identity |
| Settlement.TwapPriceMonotone | claude-worker/src/claude_worker/bin15_ref.py:358-394 | inside the window the price does not fall in the known area and does not rise in the strike |
| Settlement.TwapMoneynessInMark | claude-worker/src/claude_worker/bin15_ref.py:327-355 | inside the window the moneyness does not fall in the mark while the known area is at most w * strike, and does not rise in it from there on |
| Settlement.TwapPriceInMark | claude-worker/src/claude_worker/bin15_ref.py:358-394 | nor does the price, on each side of that area |
| RecalTables.RoundHalfAwayLaw | claude-worker/src/claude_worker/bin15_fit.py:247-261 | odd, a nearest integer, and a tie goes away from zero |
| RecalTables.RecalTable | claude-worker/src/claude_worker/bin15_fit.py:668-716 | accepts exactly the slopes 1..1032; the table is symmetric, monotone, in range, and its interior is the unclamped line |
| RecalTables.InteriorUnclamped | claude-worker/src/claude_worker/bin15_fit.py:668-716 | an accepted slope never reaches the interior clamp |
| RecalTables.ValidatePhiLut | claude-worker/src/claude_worker/bin15_fit.py:593-620 | accepts exactly the tables of the right length, starting at one half, monotone, in range, with a high enough end |
| RecalTables.ComplementsSum | claude-worker/src/claude_worker/bin15_ref.py:167-177 | on a symmetric table the prices of p and 1e6 - p sum to 1e6 or one less; the unit is lost exactly when the cell does not divide out |
| RecalTables.YesAndNoSum | claude-worker/src/claude_worker/bin15_ref.py:150-239 | so do the Yes and No prices of one d, through both tables |
| LateModel.StatsRoll | claude-worker/src/claude_worker/bin15_ref.py:525-540 | one second on, the rolling sum and count lose the second that leaves the 900 s window and gain the one that enters |
| LateModel.ReturnLaw | claude-worker/src/claude_worker/bin15_ref.py:534-540 | a second with a mark there and at the second before adds the square of its return, relative to the earlier mark and floored in billionths, capped at the largest i64; any other adds nothing |
| LateModel.CountLaw | claude-worker/src/claude_worker/bin15_ref.py:534-540 | the count is the number of such seconds in the window |
| LateModel.FrontierBehind | claude-worker/src/claude_worker/bin15_ref.py:542-570 | a quote strictly later than every query at an exact second is strictly later than every filled second |
| LateModel.MarkNearFrontier | claude-worker/src/claude_worker/bin15_ref.py:542-570 | in any history in time order the current mark is at most one second past the filled frontier |
| LateSampler.FilledAsOf | claude-worker/src/claude_worker/bin15_ref.py:505-570 | over any history in time order each filled second holds the last mark at or before it if under 5 s old, else 0, and its ratio to the last perp quote, as the history stood when the second was filled |
| LateSampler.LateQuotes | claude-worker/src/claude_worker/bin15_ref.py:542-570 | the sample by the whole history differs from that only by the quotes that came for the second after it was filled |
| LateSampler.RightExactly | claude-worker/src/claude_worker/bin15_ref.py:505-570 | a filled second holds the sample by the whole history exactly when a mark that came too late repeats its mark and a perp quote that did gives its ratio |
| LateSampler.NaiveIsSampler | claude-worker/src/claude_worker/bin15_ref.py:505-570 | so it does for every second where no quote sits at the instant of a query |
| LateSampler.FilledFromFirst | claude-worker/src/claude_worker/bin15_ref.py:542-556 | exactly the seconds from the first one on are filled |
| LateSampler.GapPathAgrees | claude-worker/src/claude_worker/bin15_ref.py:542-556 | the gap path leaves the same frontier, current quotes and recent seconds as filling every second, over any history in time order, quotes at queried instants included |
| LateSampler.GridMatchesHistory | claude-worker/src/claude_worker/bin15_ref.py:505-570 | on the path the source takes, gaps or not, over any history in time order, the recent seconds are the samples as they were filled, and the samples by the whole history exactly where no quote that came too late changes them |
| LateSampler.GapPathKeepsStats | claude-worker/src/claude_worker/bin15_ref.py:525-556 | the gap path leaves the same rolling sum and count of returns, over any history in time order |
| LateSampler.MarkAtQueriedInstant | claude-worker/src/claude_worker/bin15_ref.py:542-563 | after any history a mark stamped at the instant of a second already filled does not reach it: the second is right in its mark exactly when that repeats the price |
| LateSampler.PerpAtQueriedInstant | claude-worker/src/claude_worker/bin15_ref.py:542-570 | nor does a perp quote: it is right in its ratio exactly when that repeats it |
| LateGrids.RingRolls | claude-worker/src/claude_worker/bin15_ref.py:525-540 | overwriting one slot and dropping the one that leaves the window keeps the return ring exact: no return lost, none counted twice |
| LateGrids.ShortRolls | claude-worker/src/claude_worker/bin15_ref.py:505-524 | overwriting one slot keeps the 64-slot ring exact |
| LateGrids.LateGrid.constructor | claude-worker/src/claude_worker/bin15_ref.py:484-495 | an empty grid |
| LateGrids.LateGrid.ClearRings | claude-worker/src/claude_worker/bin15_ref.py:497-503 | every slot blank, both totals zero, everything else as it was |
| LateGrids.LateGrid.FillSecond | claude-worker/src/claude_worker/bin15_ref.py:505-540 | the rings and totals of second s from those of s - 1, and the sample of s written |
| LateGrids.LateGrid.AdvanceTo | claude-worker/src/claude_worker/bin15_ref.py:542-556 | in-place filling and skipping do to the abstract grid exactly what advance does |
| LateGrids.LateGrid.OnMark | claude-worker/src/claude_worker/bin15_ref.py:558-563 | one mark event, non-positive marks ignored |
| LateGrids.LateGrid.OnPerp | claude-worker/src/claude_worker/bin15_ref.py:565-570 | one perp event, non-positive sums ignored |
| LateGrids.LateGrid.Totals | claude-worker/src/claude_worker/bin15_ref.py:525-540 | the running totals are the sum and count over exactly (sec - 900, sec], and a slot is marked valid exactly for a valid return there |
| LateGrids.Replay | claude-worker/src/claude_worker/bin15_ref.py:664-700 | replaying any history in place gives the abstract run |
| LateFairs.PofZMonotone | claude-worker/src/claude_worker/bin15_ref.py:453-466 | the late table lookup does not fall in z and stays in [0, 1e6] |
| LateFairs.MedianSplits | claude-worker/src/claude_worker/bin15_ref.py:577-592 | the basis is a median: half the sorted values on each side of it, and the floored mean of the two in the middle |
| LateFairs.SamplesPartition | claude-worker/src/claude_worker/bin15_ref.py:631-643 | observed and future samples partition the 60 settlement seconds and the next future one has a positive lead |
| LateFairs.SquarePyramid | claude-worker/src/claude_worker/bin15_ref.py:641-645 | n(n-1)(2n-1)/6 is exactly the sum of k^2 for k < n |
| LateFairs.VarianceIsCovarianceSum | claude-worker/src/claude_worker/bin15_ref.py:641-645 | the closed form is the sum of all pairwise covariances of the future samples |
| LateFairs.VarianceTermExact | claude-worker/src/claude_worker/bin15_ref.py:641-645 | so the variance used is the average's: that sum over 60 squared |
| LateFairs.PriceFallsInStrike | claude-worker/src/claude_worker/bin15_ref.py:594-655 | a higher strike is held exactly when the lower one is, and is never priced above it |
| LateFairs.AllObservedSettles | claude-worker/src/claude_worker/bin15_ref.py:594-655 | once all 60 are observed the price is the table's end on the side of "sum of marks >= 60 * strike" |
| LateFairs.SlotsAreHistory | claude-worker/src/claude_worker/bin15_ref.py:577-655 | over any history in time order a slot of the last 64 seconds belongs to the second asked for and holds its sample as filled, and by the whole history exactly where no quote that came too late changes it |
| LateFairs.SlotsAreNaive | claude-worker/src/claude_worker/bin15_ref.py:577-655 | in time order a slot of the last 64 seconds belongs to the second asked for and holds what filling every second leaves there |
| LateFairs.ReadsAreOwn | claude-worker/src/claude_worker/bin15_ref.py:594-655 | every slot a priced call reads is its own second's, in any history in time order |
| LateFairs.ObservedIsHistory | claude-worker/src/claude_worker/bin15_ref.py:631-640 | over any history in time order the observed sum of a price is that of the samples as filled, and by the whole history when every late mark repeats its second's |
| LateFairs.RingsAreNaive | claude-worker/src/claude_worker/bin15_ref.py:481-570 | after any history in time order the in-place rings hold what filling every second leaves |
| LateFairs.TotalsAreNaive | claude-worker/src/claude_worker/bin15_ref.py:525-570 | the in-place totals are that fill's, and only slots of the 900 s window are marked valid |
| LateFairs.RingsHoldHistory | claude-worker/src/claude_worker/bin15_ref.py:481-570 | and the history's samples as filled, by the whole history exactly where no quote that came too late changes one |
| LateFairs.LateFairMethod | claude-worker/src/claude_worker/bin15_ref.py:594-655 | the in-place computation over the rings is the abstract price, hold by hold |
| LateLaws.NowcastInverts | claude-worker/src/claude_worker/bin15_ref.py:524-628 | the ratio a ring holds is mark over half of bid plus ask, and the nowcast at the same perp sum gives the mark back within the two floors |
| LateLaws.RatioCounts | claude-worker/src/claude_worker/bin15_ref.py:577-584 | the basis values are the positive ratios of the window, each as often as a second holds it |
| LateLaws.BasisExists | claude-worker/src/claude_worker/bin15_ref.py:577-592 | there is a basis exactly when a second of the window holds a ratio |
| LateLaws.NowcastBetween | claude-worker/src/claude_worker/bin15_ref.py:577-628 | every quoted nowcast lies between those of the window's extreme ratios |
| LateLaws.SteadyNowcast | claude-worker/src/claude_worker/bin15_ref.py:594-655 | over any history in time order, when every fresh second of the basis window had one mark and one perp sum and the perp still has it, the price is quoted on a nowcast of that mark |
| LateLaws.SigmaLaw | claude-worker/src/claude_worker/bin15_ref.py:572-575 | sigma is the floor root of the mean squared return of the window up to its cap, and exists exactly with 300 returns |
| LateLaws.DeviationLaw | claude-worker/src/claude_worker/bin15_ref.py:643-646 | the deviation is scale times sigma times nowcast times the root of the covariances' sum over 60, within its floors |
| LateLaws.ZLaw | claude-worker/src/claude_worker/bin15_ref.py:647-654 | z by its inequality off the clamp, and the clamp on the excess's side with no deviation left |
| LateLaws.PofZLaw | claude-worker/src/claude_worker/bin15_ref.py:453-466 | the late price is on the table's line, and the two sides of zero are complements |
| LateLaws.PriceLaw | claude-worker/src/claude_worker/bin15_ref.py:594-655 | every quoted price is the table at the z of the observed sum and the nowcast of the rest against 60 strikes over that deviation |
| LateLaws.HoldsExactly | claude-worker/src/claude_worker/bin15_ref.py:594-640 | a price is quoted exactly when no hold applies, and otherwise the first hold that does is named |
| LateLaws.FreshIsHistory | claude-worker/src/claude_worker/bin15_ref.py:606-618 | in time order the quotes a query meets are fresh exactly when the history's last ones are |
| Archive.IndexIsTruth | claude-worker/src/claude_worker/archive.py:684-715 | in every reachable bucket verify succeeds exactly when the index exists |
| Archive.ResumeNeverStuck | claude-worker/src/claude_worker/archive.py:515-528 | a manifest in a reachable bucket always passes the resume's check |
| Archive.DeepIsTruth | claude-worker/src/claude_worker/archive.py:717-731 | with one compression of the run, an index means every file is listed in order and stored byte for byte |
| Archive.DamageNoticed | claude-worker/src/claude_worker/archive.py:684-729 | verify notices a lost object and one of another size or, where both are known, another tag; what it misses is exactly a replacement alike in both, and the deep check misses only the same bytes |
| Archive.PutDataKeeps | claude-worker/src/claude_worker/archive.py:555-611 | uploading a file not yet recorded keeps the bucket's promises |
| Archive.RecordKeeps | claude-worker/src/claude_worker/archive.py:311-328 | recording a file that is stored keeps them |
| Archive.PutDocKeeps | claude-worker/src/claude_worker/archive.py:613-631 | writing a manifest of stored files keeps them |
| Archive.PutIndexKeeps | claude-worker/src/claude_worker/archive.py:613-631 | writing the index with the manifest's bytes keeps them |
| Archive.CommitKeeps | claude-worker/src/claude_worker/archive.py:613-631 | every state the commit passes through keeps them, touches only this run, and stays with one compression |
| Archive.UploadKeeps | claude-worker/src/claude_worker/archive.py:555-611 | an upload of an unrecorded file of a run without a manifest keeps the promises, touches one run and stays with one compression |
| Archive.RecordingKeeps | claude-worker/src/claude_worker/archive.py:555-611 | so does recording a stored file |
| Archive.Archiver.PushFile | claude-worker/src/claude_worker/archive.py:555-611 | one file, dying at any write: promises kept, other runs untouched, a recorded file not uploaded again, an object of the right size not rewritten, and nothing but this file's object and record changed |
| Archive.Archiver.PushFiles | claude-worker/src/claude_worker/archive.py:555-611 | the loop over files: complete exactly when the budget was never found spent, and otherwise stopped after the first file it was, with exactly the files up to it recorded and files left |
| Archive.Archiver.Commit | claude-worker/src/claude_worker/archive.py:613-631 | manifest, then index, then staging directory, dying anywhere |
| Archive.Archiver.Resume | claude-worker/src/claude_worker/archive.py:521-530 | a manifest without an index gets one with its own bytes exactly when every file it lists is in place, whatever the state of the bucket; in a sound one they always are |
| Archive.Archiver.PushRun | claude-worker/src/claude_worker/archive.py:500-631 | one attempt: each outcome exactly under its cause; refused, without room or dry nothing is written; promises kept at every crash point; uninterrupted it ends verified; an indexed run is never touched |
| Archive.Archiver.Verify | claude-worker/src/claude_worker/archive.py:684-715 | decides, of any bucket, whether the index has the manifest's bytes and every listed file is in place; in a sound one that is the index's existence |
| Archive.Archiver.Campaign | claude-worker/src/claude_worker/archive.py:500-631 | any series of attempts, dying anywhere and losing progress files, keeps the promises and one compression; one attempt with nothing in its way archives the run; attempts none of which is eligible change nothing |
| Archive.Archiver.PushPending | claude-worker/src/claude_worker/archive.py:642-682 | every non-empty run before the one the sweep stopped at is verified unless it was dry, no run after it is touched, an ineligible sweep changes nothing, and one with nothing in its way reaches its end |
| CutFeed.RunKeeps | scripts/pvm-cut-feed.py:229-275 | the invariant holds in every state of every interleaving of feeder and consumer |
| CutFeed.FeedIsSafe | scripts/pvm-cut-feed.py:239-275 | at most two spool cuts exist; none is evicted before its DONE unless abort or the wait bound; a cut being read is on disk; exit 0 leaves none |
| CutFeed.NeverBothBlocked | scripts/pvm-cut-feed.py:229-275 | feeder and consumer are never both blocked |
| CutFeed.NoStuckRun | scripts/pvm-cut-feed.py:229-275 | in a run that can go no further the feeder has exited and the consumer has finished or stopped, or waits because a wait bound of the feeder's ran out |
| CutFeed.CleanRunDelivers | scripts/pvm-cut-feed.py:243-275 | a run without abort, refusal or timeout delivers every cut in order and evicts every directory |
| CutFeed.StepDecreases | scripts/pvm-cut-feed.py:229-275 | every step of either party decreases a rank |
| CutFeed.RunIsBounded | scripts/pvm-cut-feed.py:229-275 | so every run ends within a bound linear in the plan |
| CutTrace.RunHasTrace | scripts/pvm-cut-feed.py:243-274 | every run is one of some moves, each with what it met |
| CutTrace.PulledWithRoom | scripts/pvm-cut-feed.py:259-267 | whatever is spooled or announced was pulled onto a disk that had room for it |
| CutTrace.RefusedExactly | scripts/pvm-cut-feed.py:259-263 | a row is refused exactly when its pull found no room |
| CutTrace.FullDiskUntouched | scripts/pvm-cut-feed.py:259-267 | a disk without room for the first spool row is never written to |
| CutTrace.FinishedExactly | scripts/pvm-cut-feed.py:243-274 | a finished run with no bound run out and no stop row returns 5 exactly when a pull found no room, stopped at that row with the consumer; otherwise every cut was delivered |
| CutTrace.FullDiskRefuses | scripts/pvm-cut-feed.py:420-422 | on a full disk it ends with exit 5, the first spool row refused, nothing spooled, and the consumer stopped |
| CutTrace.TimedOutExactly | scripts/pvm-cut-feed.py:229-236 | a run is marked timed out exactly when the feeder left a wait nothing had ended |
| CutTrace.AbortStops | scripts/pvm-cut-feed.py:248-252 | after an abort at most the one row the feeder was at is still pulled or announced |
| CutTrace.EvictedWhenDone | scripts/pvm-cut-feed.py:253-274 | a cut leaves the spool before its done marker only after an abort or where a wait bound ran out |
| CutTrace.StopRowStops | scripts/pvm-cut-feed.py:243-274 | a finished run with a stop row stopped the consumer there after every cut before it, with the feeder at exit 0 and the spool empty |
| CutPlan.CandidatesAre | scripts/pvm-cut-feed.py:74-109 | the candidates are exactly the local runs and the whole windows inside [A, B) |
| CutPlan.CandidatesMean | scripts/pvm-cut-feed.py:73-108 | a candidate is a part of a version 3 run inside the window, starting where that part does: the whole of a short local run or one complete window of a remote one |
| CutPlan.StrataLeast | scripts/pvm-cut-feed.py:137-137 | the number of strata is the least from 8 on whose windows hold the tape the plan needs |
| CutPlan.StrataPartition | scripts/pvm-cut-feed.py:141-147 | a start inside the window is in exactly one stratum, and no other start is in any |
| CutPlan.CollectCandidates | scripts/pvm-cut-feed.py:74-109 | the loop collects exactly those |
| CutPlan.SpreadCheck | scripts/pvm-cut-feed.py:112-129 | accepts exactly the span, tape and phase-gap rules |
| CutPlan.GapMeans | scripts/pvm-cut-feed.py:112-129 | no gap between sorted phases is too wide exactly when every phase in between has one close enough after it |
| CutPlan.PickIsBest | scripts/pvm-cut-feed.py:142-158 | a stratum's pick is a member no other is preferred to, and missing exactly when the stratum is empty |
| CutPlan.PickMeans | scripts/pvm-cut-feed.py:148-157 | the pick is local if any candidate of the stratum is, then of the largest run, then the earliest, then the lowest draw |
| CutPlan.PicksAscend | scripts/pvm-cut-feed.py:142-158 | picks of successive strata start in increasing order, each in its stratum |
| CutPlan.PicksComplete | scripts/pvm-cut-feed.py:142-158 | there are as many picks as strata exactly when no stratum is empty |
| CutPlan.DropOverlaps | scripts/pvm-cut-feed.py:159-168 | the result is disjoint, and shorter exactly when something overlapped |
| CutPlan.MakePlan | scripts/pvm-cut-feed.py:132-174 | returns a plan exactly when every stratum has a pick, none overlap and the spread holds; the plan obeys every rule |
| CutPlan.PlanHolds | scripts/pvm-cut-feed.py:132-174 | such picks are n cuts, one per stratum, in start order, disjoint, inside [A, B), meeting the spread |
| Pacer.BookingKeepsCap | claude-worker/src/claude_worker/candles.py:965-980 | a booking made when the window has room, or is empty, keeps every minute of the past and future under the cap |
| Pacer.WeightPacer.Spent | claude-worker/src/claude_worker/candles.py:960-963 | popping from the front leaves exactly the live bookings, whose total is the true window sum |
| Pacer.WeightPacer.Acquire | claude-worker/src/claude_worker/candles.py:965-976 | returns with room or an empty minute; not waiting when there is room already, never waiting more than the minute, and reporting exactly what it asked to sleep |
| Pacer.WeightPacer.Record | claude-worker/src/claude_worker/candles.py:978-980 | books the weight now |
| Pacer.WeightPacer.Request | claude-worker/src/claude_worker/candles.py:965-980 | an acquire and its record keep every minute under the cap |
| Pacer.PacedRun | claude-worker/src/claude_worker/candles.py:941-980 | over any run of requests no minute holds more than the larger of the limit and the heaviest request |
| CandleStore.ConflictsAreDisagreements | claude-worker/src/claude_worker/candles.py:485-601 | after a page a key is in the conflicts exactly when it was before or a bar of the page disagreed with its frozen row; the first sighting is kept and the row is as it was |
| CandleStore.ConflictShows | claude-worker/src/claude_worker/candles.py:552-580 | the logged bar is the last one of the page that disagreed |
| CandleStore.LogUnchanged | claude-worker/src/claude_worker/candles.py:552-580 | with none the log is as it was |
| CandleStore.RestKeeps | claude-worker/src/claude_worker/candles.py:485-601 | under any clock a REST upsert keeps frozen rows, first sightings and REST sources; with one that has not gone back no row is stamped ahead of it |
| CandleStore.CaptureKeeps | claude-worker/src/claude_worker/candles.py:1504-1557 | so does a capture upsert, which never replaces a REST row |
| CandleStore.CapturedValues | claude-worker/src/claude_worker/candles.py:1504-1557 | after a batch a key no other kind of row holds shows its last minute's prices and count, with no volume made up |
| CandleStore.CaptureLeavesRest | claude-worker/src/claude_worker/candles.py:1504-1557 | every other key is as it was |
| CandleStore.CaptureAgain | claude-worker/src/claude_worker/candles.py:1504-1557 | the same batch again changes nothing, not even a fetch time |
| CandleStore.PurgeKeeps | claude-worker/src/claude_worker/candles.py:604-627 | the purge removes exactly the bars opening too far ahead of the clock and changes nothing else; with a clock that has not gone back none of them is frozen |
| CandleStore.AheadIsLost | claude-worker/src/claude_worker/candles.py:604-627 | what the report counts is exactly what the purge loses |
| CandleStore.RestOpens | claude-worker/src/claude_worker/candles.py:485-601 | a REST upsert stores exactly the bars it does not refuse and touches no other series |
| CandleStore.PageStores | claude-worker/src/claude_worker/candles.py:504-514 | a page stores exactly its bars that open at most a minute after it was fetched, or after the cycle's clock when that is not known |
| CandleStore.MeetsMeans | claude-worker/src/claude_worker/candles.py:512-601 | what each counted case of a fetched bar means for the tables |
| CandleStore.Store.UpsertOne | claude-worker/src/claude_worker/candles.py:485-601 | one bar in place, counted in the column of what it met |
| CandleStore.Store.UpsertRest | claude-worker/src/claude_worker/candles.py:485-601 | a page in place, every column the number of bars that met its case, a row more per bar inserted |
| CandleStore.Store.UpsertCapture | claude-worker/src/claude_worker/candles.py:1504-1557 | a batch of capture minutes in place; a row more per inserted bar, a bar kept out per key another kind of row holds |
| CandleStore.Store.PurgeFuture | claude-worker/src/claude_worker/candles.py:604-627 | deletes timeframe by timeframe and reports, sorted, exactly how many bars each series lost |
| CandleRuns.FrozenExactly | claude-worker/src/claude_worker/candles.py:485-627 | over any run of upserts, captures, derivations and purges, under any clock, a closed REST row is unchanged in every later state exactly when no purge in between finds it opening too far ahead |
| CandleRuns.ClockStepsBack | claude-worker/src/claude_worker/candles.py:485-627 | a run in which a purge under a clock that stepped back takes a closed REST row |
| CandleRuns.FrozenForever | claude-worker/src/claude_worker/candles.py:485-627 | with a clock that does not go back no purge does, so it is kept for good |
| CandleRuns.FirstSightingForever | claude-worker/src/claude_worker/candles.py:485-627 | under any clock and through any purge a logged conflict keeps its first-seen time |
| CandleRuns.RestStaysRest | claude-worker/src/claude_worker/candles.py:1504-1557 | under any clock no step turns a REST row into another kind, and one is removed exactly by a purge that finds it opening too far ahead |
| CandleRuns.ConflictsAreFrozen | claude-worker/src/claude_worker/candles.py:485-627 | with a clock that does not go back every logged conflict is about a row that is still there, frozen |
| Derive.AggregateLaw | claude-worker/src/claude_worker/candles.py:1295-1311 | open first, close last, high and low the attained extremes, volume the sum, known exactly when every bar's is |
| Derive.DeriveRows | claude-worker/src/claude_worker/candles.py:1246-1344 | one pass over sorted rows writes for each complete closed window exactly its aggregate, and nothing else |
| Derive.GroupSorted | claude-worker/src/claude_worker/candles.py:1295-1311 | a window's group is its bars in order |
| Derive.CompleteMeansEveryBar | claude-worker/src/claude_worker/candles.py:1224-1300 | on a grid a window has k bars exactly when every one of its k slots has one |
| Derive.AnswersUnique | claude-worker/src/claude_worker/candles.py:1270-1289 | the sorted selection is determined by the table |
| Derive.SelectBase | claude-worker/src/claude_worker/candles.py:1270-1289 | selects the base rows from the floor on, sorted |
| Derive.DeriveIdempotent | claude-worker/src/claude_worker/candles.py:1246-1344 | deriving the same rows again changes nothing |
| Derive.BoundedRowsAgree | claude-worker/src/claude_worker/candles.py:1271-1289 | on one timeframe, rows from the aligned floor on derive the same windows as all rows |
| Derive.BoundedPassAgrees | claude-worker/src/claude_worker/candles.py:1246-1344 | with since_ms the whole pass agrees with the unbounded one on every window of every timeframe from its aligned floor on, and changes nothing else |
| Derive.DerivePass | claude-worker/src/claude_worker/candles.py:1246-1344 | all derived timeframes in turn |
| Derive.PassIdempotent | claude-worker/src/claude_worker/candles.py:1246-1344 | a second pass changes nothing |
| Derive.WindowEnds | claude-worker/src/claude_worker/candles.py:1295-1332 | a closed window with every base bar there and its key free or derived ends with their aggregate, stale or not before; a row of an open or incomplete window, or of another kind, is as it was |
| Derive.PassKeeps | claude-worker/src/claude_worker/candles.py:1295-1332 | under any clock a pass keeps frozen rows, first sightings and REST sources |
| Fill.StretchKeepsNoHole | claude-worker/src/claude_worker/candles.py:1124-1167 | storing a stretch of the venue's bars that joins the frontier leaves no hole |
| Fill.GrowthKeepsNoHole | claude-worker/src/claude_worker/candles.py:1124-1167 | nor does the venue growing at its end |
| Fill.PageFinal | claude-worker/src/claude_worker/candles.py:485-601 | storing a page from the frontier leaves every stored bar behind another one closed and with the venue's values |
| Fill.ForwardPageStep | claude-worker/src/claude_worker/candles.py:1146-1166 | one page: no hole, the venue's own bars stored, the front moved past at least one of them, the bars behind it final; done only when everything up to now is stored |
| Fill.FillForward | claude-worker/src/claude_worker/candles.py:1124-1167 | done, everything the venue has from the frontier up to now is stored; its budget runs out only on a page for every bar, and it fails exactly on a failed request; however it ends no hole is left, nothing is missing from the start of an empty series, only the venue's bars were stored, every bar behind the frontier has its final values, and it ends |
| Fill.WalkBack | claude-worker/src/claude_worker/candles.py:1187-1209 | what a finished walk holds is one unbroken run of the venue's bars as they were when its first page came, back to the bound or the listing edge; its budget runs out only on full pages newer than the bound; it ends though the venue grows and its open bar changes |
| Fill.WalkIsStretch | claude-worker/src/claude_worker/candles.py:1187-1210 | cut at the bound it is exactly the venue's bars from the bound to now |
| Fill.FillOkxBackward | claude-worker/src/claude_worker/candles.py:1170-1216 | out of budget or failed nothing is written; on every other exit exactly the venue's bars from the bound to now are, no hole is left, and every bar behind the frontier has the venue's final values |
| Fill.RunCycle | claude-worker/src/claude_worker/candles.py:1124-1216 | an unfailed cycle with budget for the venue's history has stored everything the venue had up to the cycle's clock |
| Fill.Cycles | claude-worker/src/claude_worker/candles.py:1124-1216 | over any number of interrupted cycles, forward or backward, the series never gets a hole and never loses a bar; with no clock ahead of the venue's every bar behind the frontier has its final values; with no failure and budget enough in the last one the series has caught up |
| Fill.AheadSticks | claude-worker/src/claude_worker/candles.py:485-601 | of a bar seen first with one set of values and then with another, the first are kept exactly when the clock had passed its close at the first |
| Evidence.MergedImproves | claude-worker/src/claude_worker/bin15_ledger.py:270-294 | what a merge does to a stored row is an improvement, and absorbs the incoming row |
| Evidence.StaysAbsorbed | claude-worker/src/claude_worker/bin15_late.py:317-374 | an absorbed row stays absorbed whatever else arrives |
| Evidence.AbsorbedFire | claude-worker/src/claude_worker/bin15_late.py:339-374 | absorbing a fire of the same law means exactly: no later stamps, at least as many known labels, entered at least as high |
| Evidence.AbsorbedMeans | claude-worker/src/claude_worker/bin15_late.py:317-374 | absorption of every other kind of row spelled out exactly |
| Evidence.MergeImproves | claude-worker/src/claude_worker/bin15_late.py:317-374 | a venue row of the ledger and a settled entry are final; a fire keeps its law and known labels and its stamps never move later; no other law replaces a stored one |
| Evidence.MergeCorrects | claude-worker/src/claude_worker/bin15_ledger.py:270-294 | once a venue row has come for a key the store holds a venue row under it, an entry is settled once a settled one of its law has come, and a fire's label is known once any row's is |
| Evidence.MergeSource | claude-worker/src/claude_worker/bin15_ledger.py:270-294 | a ledger row or an entry is never made up: it was stored or it came |
| Evidence.MergeKeys | claude-worker/src/claude_worker/bin15_ledger.py:270-294 | the merged keys are both files' keys |
| Evidence.Merge | claude-worker/src/claude_worker/bin15_ledger.py:270-294 | writes each key once, sorted, and counts exactly the keys the file did not have |
| Evidence.MergeAgain | claude-worker/src/claude_worker/bin15_ledger.py:270-294 | merging the same rows again changes nothing and adds nothing, whatever the file held |
| Evidence.EarliestFire | claude-worker/src/claude_worker/bin15_late.py:346-374 | the merged fire carries stamps no later than any row of its law that reached it |
| Evidence.StampHasSource | claude-worker/src/claude_worker/bin15_late.py:346-374 | and each of its two stamps is one some row of that law carried |
| Evidence.VenueRowsStay | claude-worker/src/claude_worker/bin15_ledger.py:270-294 | no merge loses a venue row exactly when in the file no venue row is followed by another row of its key |
| Relabel.CoveringLaw | claude-worker/src/claude_worker/bin15_tape.py:196-204 | the tape found is the first that covers the stamp, and there is one exactly when some tape does |
| Relabel.ClockLaw | claude-worker/src/claude_worker/bin15_accrue.py:447-526 | a record's old stamp is covered exactly when it lies within the tape, and its row goes to the record's venue time with the captures' label, the engine's beside it and an entry's offset in whole seconds from its start |
| Relabel.FilledLabels | claude-worker/src/claude_worker/bin15_accrue.py:417-436 | a fill changes an unknown label to the captures' known one, and the next strike's with it unless theirs is unknown |
| Relabel.VenueRowsComeFrom | claude-worker/src/claude_worker/bin15_accrue.py:447-526 | every venue row of the file was one before or is an engine row of a record some tape holds, at that record's venue time |
| Relabel.FillVenue | claude-worker/src/claude_worker/bin15_accrue.py:417-436 | fills exactly the unknown labels the captures now know, and counts them |
| Relabel.RelabelRow | claude-worker/src/claude_worker/bin15_accrue.py:462-482 | one row against the keys held so far has the fate the whole file gives it |
| Relabel.MoveEngineRows | claude-worker/src/claude_worker/bin15_accrue.py:459-483 | the loop's counters are the fates' and each row has one |
| Relabel.RelabelStore | claude-worker/src/claude_worker/bin15_accrue.py:447-485 | rows = converted + already + uncovered + collided, and only collided rows leave the file |
| Relabel.NothingLost | claude-worker/src/claude_worker/bin15_accrue.py:447-526 | a row is lost only to a collision, and then a venue row stands on the key it was moving to |
| Relabel.FileIsImages | claude-worker/src/claude_worker/bin15_accrue.py:447-526 | the file holds the images of its rows and nothing else |
| Relabel.VenueRowStays | claude-worker/src/claude_worker/bin15_accrue.py:417-436 | a venue row keeps key, stamp and law under any captures, and a known label |
| Relabel.SecondRun | claude-worker/src/claude_worker/bin15_accrue.py:447-526 | a second run over the same captures converts, fills and drops nothing |
| RelabelRuns.UniqueAfter | claude-worker/src/claude_worker/bin15_accrue.py:447-485 | the relabelled file has a row per key exactly when no covered row moves onto the stamp of an uncovered one |
| RelabelRuns.EntriesNeverClash | claude-worker/src/claude_worker/bin15_accrue.py:488-526 | in the entry store, whose key has no stamp, that never happens |
| RelabelRuns.SortStable | claude-worker/src/claude_worker/bin15_accrue.py:484-484 | the sort leaves rows of one key in file order |
| RelabelRuns.LawKept | claude-worker/src/claude_worker/bin15_accrue.py:447-485 | when only merges follow a relabel, none puts an engine row back over a venue row exactly when no covered row moves onto an uncovered row further down |
| RelabelRuns.LawKeptThroughRelabel | claude-worker/src/claude_worker/bin15_accrue.py:447-526 | when a further run of the lane may come before the merge, none does exactly when no covered row moves onto an uncovered one, or none does onto one further down and the file is stuck: its venue rows are settled and its engine rows share one stamp |
| RelabelRuns.LawKeptOverRuns | claude-worker/src/claude_worker/bin15_accrue.py:561-682 | that is also exactly when every venue row of the file the lane leaves keeps its key, stamp and law over every run of accruals and relabels that follows |
| RelabelRuns.UnstuckMoves | claude-worker/src/claude_worker/bin15_accrue.py:670-681 | a file that is not stuck can be written by the lane while it leaves a given engine row alone |
| RelabelRuns.RelabelSwaps | claude-worker/src/claude_worker/bin15_accrue.py:462-484 | a relabel puts an engine row it leaves alone behind the venue row on its key, wherever it stood |
| RelabelRuns.SecondRelabelReverts | claude-worker/src/claude_worker/bin15_accrue.py:447-485 | three ledger rows a merge after the first relabel leaves alone, and a merge after the second reverts |
| RelabelRuns.ClashReverts | claude-worker/src/claude_worker/bin15_ledger.py:270-294 | when one moves onto an uncovered row further down, the next accrual puts the engine's row back |
| RelabelRuns.LawReverted | claude-worker/src/claude_worker/bin15_accrue.py:447-485 | two such rows |
| RelabelRuns.RelabelLane | claude-worker/src/claude_worker/bin15_accrue.py:670-681 | the file is replaced only if something was converted, filled or dropped |
| RelabelRuns.LaneTwice | claude-worker/src/claude_worker/bin15_accrue.py:561-682 | running the lane again over the same captures leaves the file exactly as it is |
| RelabelRuns.LawForever | claude-worker/src/claude_worker/bin15_accrue.py:447-526 | after a relabel in which no covered row moves onto an uncovered one, every venue row of the file stays for good, its label known or not |
| RelabelRuns.VenueForever | claude-worker/src/claude_worker/bin15_accrue.py:447-526 | over any run of accruals and relabels, with any captures, a venue row alone on its key keeps its stamp and law, is never moved again, and gains at most a label |

## Left out

- Floating point: candle prices and volumes are integers, the pacer's clock is `real`, strata are
  exact fractions; rounding of the source's floats is not modelled.
- Machine integers: the pricer's i64 wrap and i128 and u64 guards are modelled; elsewhere integers
  are unbounded, as in Python.
- HTTP, S3, SQLite, the filesystem and subprocesses: only their effect on a map, a set or a marker.
- Clocks, budgets, randomness and venue answers: parameters or arbitrary values; the archive's time
  budget is a number of files; the planner's random tie-break is a function parameter.
- Wire formats and file formats: request URLs, JSON bodies, TSV columns and the pmlr format.
- The `decimal` special functions behind the normal and Student tables: a table is any table
  `validate_phi_lut` accepts.
- Concurrent archive pushers and hash collisions: one pusher, digests injective.
- Archive.Archiver.PushRun: parts of a multipart upload, the capture catalog and the pmlr facts in a
  manifest are not modelled; compression is one fixed function of the run's files when contents are
  stated.
- CutFeed: a poll of a marker is one atomic step, the consumer is the selftest's, and local rows are
  read where they lie.
- Fill.FillForward: the venue answers a page with consecutive bars from the time asked for, and an
  empty one only when it has none up to the time asked to; its bars
  do not overlap, and a bar does not change once it has closed by the venue's clock; the start of an
  empty series is a parameter.
- CandleStore: a series is a number standing for venue and descriptor in table order.
- Evidence.Merge: rows of all stores are one datatype whose keys and order carry the kind; the entry
  store has no merge of its own and keeps its rows.
- The tapes' labels: `bin15_tape.label` and the capture loading are not part of this model; labels are
  any map.
- Reports, statistics and scoring of `bin15_late`, `bin15_accrue` and `bin15_ledger`; `compose`,
  `bartest`, `carry_signal`, `backtest`, `cli`, the fuzz targets and the launchers: rendering, float
  scoring or thin wrappers.
- `pull`, tarballs, derived objects and the cache sweep of the archive: they add easier members.
