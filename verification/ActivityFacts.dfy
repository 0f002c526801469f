/** Which cycles count as whose, in terms of the evidence and of the blocks. */
module ActivityFacts {
  import opened Prelude
  import opened Records
  import opened Alignment
  import opened Attribution
  import opened ComparisonBlocks
  import opened Comparison
  import opened ComparisonEvidence
  import opened Activity
  import opened ActivityPairs

  // ----- directions -----

  /** Some usable observation in the slot was made with the station at this end. */
  ghost predicate HasEvidence(callsign: string, cs: seq<Classified>, slotId: string, direction: Direction) {
    exists c :: c in cs && c.disposition == Usable && c.assignment.slotId == Some(slotId)
      && HasPath(callsign, c.observation) && (IsOwn(callsign, c.observation.heardCall) <==> direction == Transmit)
  }

  lemma ObservedIffEvidence(callsign: string, cs: seq<Classified>, slotId: string, direction: Direction)
    ensures direction in ObservedDirections(callsign, cs, slotId) <==> HasEvidence(callsign, cs, slotId, direction)
  {
    forall c: Classified
      ensures PathIdentity(callsign, c.observation).Some? <==> HasPath(callsign, c.observation)
      ensures PathIdentity(callsign, c.observation).Some? ==>
                (PathIdentity(callsign, c.observation).value.0 == Transmit <==>
                   IsOwn(callsign, c.observation.heardCall))
    {
      PathIffHasPath(callsign, c.observation);
      OwnIffSameCall(callsign, c.observation.heardCall);
      OwnIffSameCall(callsign, c.observation.reporterCall);
      hide SameCall, IsOwn, HasPath, Trim, AsciiUpper;
    }
    hide PathIdentity, HasPath, IsOwn;
  }

  /**
   A stratum is rated in the cycles of its band whose direction is declared to be its own, or where none is declared,
   whose usable evidence is all of its own direction.
   */
  lemma RatedByEvidence(e: Evidence, s: Stratum, slot: AlignedSlot)
    ensures Rated(e, s, slot) <==>
              && slot.band == s.band
              && if slot.slotId in e.declared then e.declared[slot.slotId] == s.direction
                 else
                   && HasEvidence(e.ctx.callsign, e.cs, slot.slotId, s.direction)
                   && forall d :: HasEvidence(e.ctx.callsign, e.cs, slot.slotId, d) ==> d == s.direction
  {
    var observed := ObservedDirections(e.ctx.callsign, e.cs, slot.slotId);
    forall d
      ensures d in observed <==> HasEvidence(e.ctx.callsign, e.cs, slot.slotId, d)
    {
      ObservedIffEvidence(e.ctx.callsign, e.cs, slot.slotId, d);
    }
    hide ObservedDirections, HasEvidence;
    assert observed == {s.direction} <==> s.direction in observed && forall d :: d in observed ==> d == s.direction;
  }

  lemma {:induction false} RatedSlotsAre(e: Evidence, s: Stratum, slots: seq<AlignedSlot>, x: (Stratum, AlignedSlot))
    ensures x in RatedSlots(e, s, slots) <==> x.0 == s && x.1 in slots && Rated(e, s, x.1)
  {
    hide Rated;
    if slots != [] {
      RatedSlotsAre(e, s, slots[..|slots| - 1], x);
    }
  }

  /** The rows are those of every stratum and every cycle in which it is rated. */
  lemma {:induction false} RatedCyclesAre(e: Evidence, strata: seq<Stratum>, slots: seq<AlignedSlot>,
                                          x: (Stratum, AlignedSlot))
    ensures x in RatedCycles(e, strata, slots) <==> x.0 in strata && x.1 in slots && Rated(e, x.0, x.1)
  {
    hide Rated;
    if strata != [] {
      RatedCyclesAre(e, strata[..|strata| - 1], slots, x);
      RatedSlotsAre(e, strata[|strata| - 1], slots, x);
    }
  }

  /** WSPR is named in upper or lower case. */
  lemma WsprByLetters(mode: string)
    ensures IsWspr(mode) <==>
              |mode| == 4 && mode[0] in "Ww" && mode[1] in "Ss" && mode[2] in "Pp" && mode[3] in "Rr"
  {
    var upper := AsciiUpper(mode);
    if |mode| == 4 {
      assert upper == [Upper(mode[0]), Upper(mode[1]), Upper(mode[2]), Upper(mode[3])];
    }
  }

  // ----- where a cycle stands -----

  /** The first block that holds the slot, and the side that its label is on. */
  lemma {:induction false} TimelineByBlocks(ctx: Context, blocks: seq<Block>, slotId: string, i: nat)
    requires ctx.left != ctx.right
    ensures i < |blocks| && HoldsSlot(blocks[i], slotId)
            && (forall j :: 0 <= j < i ==> !HoldsSlot(blocks[j], slotId)) ==>
              var slot := if blocks[i].first.slotId == slotId then blocks[i].first else blocks[i].second.value;
              var seat := TimelineOf(ctx, blocks, slotId);
              && seat.Some? && seat.value.0 == blocks[i].index
              && (seat.value.1 == Some(Left) <==> slot.actualLabel == Some(ctx.left))
              && (seat.value.1 == Some(Right) <==> slot.actualLabel == Some(ctx.right))
    ensures (forall b :: b in blocks ==> !HoldsSlot(b, slotId)) ==> TimelineOf(ctx, blocks, slotId).None?
  {
    if blocks != [] && !HoldsSlot(blocks[0], slotId) {
      assert forall j :: 0 <= j < i - 1 < |blocks| - 1 ==> blocks[1..][j] == blocks[j + 1];
      TimelineByBlocks(ctx, blocks[1..], slotId, if i > 0 then i - 1 else 0);
    }
  }

  // ----- coverage -----

  /** Complete is better than partial, that than truncated, and any known coverage is better than none. */
  lemma CoverageOrder(c: Coverage)
    ensures CoverageRank(Complete) > CoverageRank(Partial) > CoverageRank(Truncated)
    ensures CoverageRank(Truncated) > CoverageRank(c) <==> c.Unknown?
  {
  }

  /** The summary's window holds the instant, its end excluded, and its bands the band. */
  predicate Holds(s: CensusSummary, time: Instant, band: Band) {
    time >= s.windowStart && time < s.windowEnd && exists i :: 0 <= i < |s.bands| && s.bands[i] == band
  }

  /** The coverage is what some covering summary says, and none that covers says better. */
  ghost predicate BestSaid(coverage: Coverage, time: Instant, band: Band, summaries: seq<CensusSummary>) {
    && (exists s :: s in summaries && Holds(s, time, band) && s.coverage == coverage)
    && forall s :: s in summaries && Holds(s, time, band) ==>
         (s.coverage == Complete ==> coverage == Complete) && (coverage == Truncated ==> s.coverage == Truncated)
  }

  /** A cycle's coverage is the best that a summary of its time and band has, or unknown if there is none. */
  lemma CoverageBySummaries(coverage: Coverage, time: Instant, band: Band, summaries: seq<CensusSummary>)
    requires BestCoverage(coverage, time, band, summaries)
    ensures if exists s :: s in summaries && Holds(s, time, band) then BestSaid(coverage, time, band, summaries)
            else coverage == Unknown(NoCensusCoverage)
  {
    forall s | s in summaries
      ensures CoversCycle(s, time, band) <==> Holds(s, time, band)
    {
    }
    hide CoversCycle, Holds;
    CoverageOrder(coverage);
    if s :| s in summaries && Holds(s, time, band) {
      assert CoversCycle(s, time, band);
    }
  }

  /** Of two coverages the combined one is the worse; of two unknown ones the left. */
  lemma CombinedIsTheWorse(left: Coverage, right: Coverage)
    ensures CombinedCoverage(left, right) == if CoverageRank(left) <= CoverageRank(right) then left else right
  {
  }

  // ----- pairs -----

  /** A rate says how many of the active were heard. */
  predicate IsRate(rate: Option<real>, heard: nat, active: nat) {
    (rate.Some? <==> active > 0) && (rate.Some? ==> rate.value * active as real == heard as real)
  }

  lemma RateSays(heard: nat, active: nat)
    ensures IsRate(Rate(heard, active), heard, active)
  {
  }

  /** What both rosters say of a receiver's place, if they do not contradict each other. */
  ghost predicate AgreedGrid(grid: Option<string>, a: Option<string>, b: Option<string>) {
    forall g :: grid == Some(g) <==> (a == Some(g) || b == Some(g)) && (a.Some? ==> a == Some(g))
                                       && (b.Some? ==> b == Some(g))
  }

  /** A common receiver's outcome says on which sides it heard, and its grid is the agreed one. */
  ghost predicate ReceiverSays(r: JointReceiver, a: Reporter, b: Reporter, heardLeft: bool, heardRight: bool) {
    && AgreedGrid(r.grid, a.grid, b.grid)
    && (r.outcome == HeardBoth <==> heardLeft && heardRight)
    && (r.outcome == LeftOnly <==> heardLeft && !heardRight)
    && (r.outcome == RightOnly <==> !heardLeft && heardRight)
    && (r.outcome == HeardNeither <==> !heardLeft && !heardRight)
  }

  lemma ReceiversByName(a: Roster, b: Roster, leftHeard: set<string>, rightHeard: set<string>)
    ensures var receivers, common := Receivers(a, b, leftHeard, rightHeard), a.Keys * b.Keys;
            && receivers.Keys == common && |receivers| == |common|
            && WithOutcome(receivers, HeardBoth) == common * leftHeard * rightHeard
            && WithOutcome(receivers, LeftOnly) == common * leftHeard - rightHeard
            && WithOutcome(receivers, RightOnly) == common * rightHeard - leftHeard
            && WithOutcome(receivers, HeardNeither) == common - leftHeard - rightHeard
            && forall name :: name in common ==>
                 ReceiverSays(receivers[name], a[name], b[name], name in leftHeard, name in rightHeard)
  {
    var receivers, common := Receivers(a, b, leftHeard, rightHeard), a.Keys * b.Keys;
    assert receivers.Keys == common;
    assert |receivers| == |receivers.Keys|;
    forall name | name in common
      ensures ReceiverSays(receivers[name], a[name], b[name], name in leftHeard, name in rightHeard)
    {
    }
    hide CommonGrid, ReceiverSays;
  }

  /**
   A pair's receivers are those active on both sides, each with the outcome that says on which sides it heard; the
   counts are the sizes of these groups.
   */
  lemma PairsByReceivers(left: CycleRate, right: CycleRate, block: nat, order: Order, cycles: seq<CensusCycle>)
    requires Counted(left, cycles) && Counted(right, cycles)
    ensures var p := PairRows(left, right, block, order, cycles);
            var a, b := RosterOf(left, cycles), RosterOf(right, cycles);
            var common := a.Keys * b.Keys;
            && p.stratum == left.stratum && p.block == block && p.order == order
            && p.leftSlotId == left.slotId && p.rightSlotId == right.slotId
            && p.coverage == CombinedCoverage(left.coverage, right.coverage)
            && p.receivers.Keys == common && p.activeInBoth == |common|
            && p.both == |common * left.heard * right.heard| && p.leftOnly == |common * left.heard - right.heard|
            && p.rightOnly == |common * right.heard - left.heard|
            && p.neither == |common - left.heard - right.heard|
            && p.leftHeard == p.both + p.leftOnly && p.rightHeard == p.both + p.rightOnly
            && IsRate(p.leftRate, p.leftHeard, p.activeInBoth) && IsRate(p.rightRate, p.rightHeard, p.activeInBoth)
            && forall name :: name in common ==>
                 ReceiverSays(p.receivers[name], a[name], b[name], name in left.heard, name in right.heard)
  {
    hide PairRows, CombinedCoverage, Rate, IsRate, Receivers, ReceiverSays, WithOutcome, RosterOf;
    var p := PairRows(left, right, block, order, cycles);
    PairReceivers(left, right, block, order, cycles);
    RateSays(p.leftHeard, p.activeInBoth);
    RateSays(p.rightHeard, p.activeInBoth);
    ReceiversByName(RosterOf(left, cycles), RosterOf(right, cycles), left.heard, right.heard);
  }

  /** Without a census on one of the sides there are no receivers either way. */
  lemma PairReceivers(left: CycleRate, right: CycleRate, block: nat, order: Order, cycles: seq<CensusCycle>)
    requires Counted(left, cycles) && Counted(right, cycles)
    ensures var p := PairRows(left, right, block, order, cycles);
            var both, leftOnly, rightOnly := WithOutcome(p.receivers, HeardBoth), WithOutcome(p.receivers, LeftOnly),
                                             WithOutcome(p.receivers, RightOnly);
            && p.receivers == Receivers(RosterOf(left, cycles), RosterOf(right, cycles), left.heard, right.heard)
            && p.stratum == left.stratum && p.block == block && p.order == order
            && p.leftSlotId == left.slotId && p.rightSlotId == right.slotId
            && p.coverage == CombinedCoverage(left.coverage, right.coverage) && p.activeInBoth == |p.receivers|
            && p.both == |both| && p.leftOnly == |leftOnly| && p.rightOnly == |rightOnly|
            && p.neither == |WithOutcome(p.receivers, HeardNeither)|
            && p.leftHeard == p.both + p.leftOnly && p.rightHeard == p.both + p.rightOnly
            && p.leftRate == Rate(p.leftHeard, p.activeInBoth) && p.rightRate == Rate(p.rightHeard, p.activeInBoth)
  {
    hide CombinedCoverage, Rate, WithOutcome, CommonGrid, JointOutcomeOf;
  }

  /** The first rate that there is of a stratum in a block on a side. */
  ghost predicate IsFirstRate(rates: seq<CycleRate>, s: Stratum, block: nat, side: Side, i: nat) {
    && i < |rates| && rates[i].stratum == s && rates[i].block == Some(block) && rates[i].side == Some(side)
    && forall j :: 0 <= j < i ==>
         rates[j].stratum != s || rates[j].block != Some(block) || rates[j].side != Some(side)
  }

  lemma {:induction false} FirstRateAt(rates: seq<CycleRate>, s: Stratum, block: nat, side: Side, i: nat)
    ensures FirstRate(rates, s, block, side) == Some(i) <==>
              && i < |rates| && IsRateOf(rates[i], s, block, side)
              && forall j :: 0 <= j < i ==> !IsRateOf(rates[j], s, block, side)
  {
    hide IsRateOf;
    if rates != [] {
      FirstRateAt(rates[..|rates| - 1], s, block, side, i);
    }
  }

  lemma {:induction false} FirstRateIsFirst(rates: seq<CycleRate>, s: Stratum, block: nat, side: Side, i: nat)
    ensures FirstRate(rates, s, block, side) == Some(i) <==> IsFirstRate(rates, s, block, side, i)
  {
    FirstRateAt(rates, s, block, side, i);
    hide FirstRate;
  }

  /** A pair is made of the first rates of its stratum on both sides of an eligible block of its band. */
  ghost predicate IsPairOf(p: PairedRate, b: Block, s: Stratum, rates: seq<CycleRate>, cycles: seq<CensusCycle>)
    requires AllCounted(rates, cycles)
  {
    && b.eligibility == Eligible && b.order.Some? && b.band == s.band
    && exists i: nat, j: nat ::
         IsFirstRate(rates, s, b.index, Left, i) && IsFirstRate(rates, s, b.index, Right, j)
         && p == PairRows(rates[i], rates[j], b.index, b.order.value, cycles)
  }

  lemma PairAtIff(b: Block, s: Stratum, rates: seq<CycleRate>, cycles: seq<CensusCycle>, p: PairedRate)
    requires AllCounted(rates, cycles) && b.order.Some? && b.eligibility == Eligible && s.band == b.band
    ensures PairAt(b, s, rates, cycles) == Some(p) <==> IsPairOf(p, b, s, rates, cycles)
  {
    forall i: nat
      ensures FirstRate(rates, s, b.index, Left) == Some(i) <==> IsFirstRate(rates, s, b.index, Left, i)
      ensures FirstRate(rates, s, b.index, Right) == Some(i) <==> IsFirstRate(rates, s, b.index, Right, i)
    {
      FirstRateIsFirst(rates, s, b.index, Left, i);
      FirstRateIsFirst(rates, s, b.index, Right, i);
    }
    hide FirstRate, PairRows;
    var l, r := FirstRate(rates, s, b.index, Left), FirstRate(rates, s, b.index, Right);
    if l.Some? && r.Some? {
      assert IsFirstRate(rates, s, b.index, Left, l.value) && IsFirstRate(rates, s, b.index, Right, r.value);
    }
    hide IsFirstRate;
  }

  lemma OtherBandsDoNotPair(b: Block, s: Stratum, rates: seq<CycleRate>, cycles: seq<CensusCycle>, p: PairedRate)
    requires AllCounted(rates, cycles)
    ensures IsPairOf(p, b, s, rates, cycles) ==> b.band == s.band && b.eligibility == Eligible
  {
  }

  lemma {:induction false} PairsInBlock(b: Block, strata: seq<Stratum>, rates: seq<CycleRate>, cycles: seq<CensusCycle>,
                                        p: PairedRate)
    requires AllCounted(rates, cycles) && b.order.Some? && b.eligibility == Eligible
    ensures p in PairsIn(b, strata, rates, cycles) <==>
              exists s :: s in strata && IsPairOf(p, b, s, rates, cycles)
  {
    hide PairAt, IsPairOf, AllCounted;
    if strata != [] {
      var n := |strata| - 1;
      PairsInBlock(b, strata[..n], rates, cycles, p);
      OtherBandsDoNotPair(b, strata[n], rates, cycles, p);
      if strata[n].band == b.band {
        PairAtIff(b, strata[n], rates, cycles, p);
      }
      assert forall s :: s in strata <==> s in strata[..n] || s == strata[n];
    }
  }

  /** The pairs are exactly those of an eligible block and a stratum of its band that has a rate on both sides. */
  lemma {:induction false} PairsByRates(blocks: seq<Block>, strata: seq<Stratum>, rates: seq<CycleRate>,
                                        cycles: seq<CensusCycle>, p: PairedRate)
    requires AllCounted(rates, cycles) && EligibleAreOrdered(blocks)
    ensures p in PairsOf(blocks, strata, rates, cycles) <==>
              exists b, s :: b in blocks && s in strata && IsPairOf(p, b, s, rates, cycles)
  {
    hide PairsIn, IsPairOf, AllCounted;
    if blocks != [] {
      var n := |blocks| - 1;
      PairsByRates(blocks[..n], strata, rates, cycles, p);
      assert blocks[n] in blocks;
      forall s
        ensures IsPairOf(p, blocks[n], s, rates, cycles) ==> blocks[n].eligibility == Eligible
      {
        OtherBandsDoNotPair(blocks[n], s, rates, cycles, p);
      }
      if blocks[n].eligibility == Eligible {
        PairsInBlock(blocks[n], strata, rates, cycles, p);
      }
      assert forall b :: b in blocks <==> b in blocks[..n] || b == blocks[n];
    }
  }

  // ----- summaries -----

  function SumBy(rows: seq<PairedRate>, f: PairedRate -> nat): nat {
    if rows == [] then 0 else SumBy(rows[..|rows| - 1], f) + f(rows[|rows| - 1])
  }

  /** Every total of a summary is the sum over its rows, and its rates are those of the sums. */
  lemma {:induction false} TotalsAreSums(rows: seq<PairedRate>)
    ensures var t := TotalsOf(rows);
            && t.known == SumBy(rows, (p: PairedRate) => if p.coverage.Unknown? then 0 else 1)
            && t.leftThenRight == SumBy(rows, (p: PairedRate) => if p.order == LeftThenRight then 1 else 0)
            && t.rightThenLeft == SumBy(rows, (p: PairedRate) => if p.order == RightThenLeft then 1 else 0)
            && t.opportunities == SumBy(rows, (p: PairedRate) => p.activeInBoth)
            && t.both == SumBy(rows, (p: PairedRate) => p.both)
            && t.leftOnly == SumBy(rows, (p: PairedRate) => p.leftOnly)
            && t.rightOnly == SumBy(rows, (p: PairedRate) => p.rightOnly)
            && t.neither == SumBy(rows, (p: PairedRate) => p.neither)
            && (forall name :: name in t.unique <==> exists p :: p in rows && name in p.receivers)
  {
    if rows != [] {
      var n := |rows| - 1;
      TotalsAreSums(rows[..n]);
      assert forall p :: p in rows <==> p in rows[..n] || p == rows[n];
    }
  }

  lemma {:induction false} SummaryRates(rows: seq<PairedRate>)
    requires rows != []
    ensures var j := SummaryOf(rows);
            && j.eligibleBlocks == |rows| && j.totals == TotalsOf(rows)
            && IsRate(j.leftRate, j.totals.both + j.totals.leftOnly, j.totals.opportunities)
            && IsRate(j.rightRate, j.totals.both + j.totals.rightOnly, j.totals.opportunities)
  {
    var t := TotalsOf(rows);
    RateSays(t.both + t.leftOnly, t.opportunities);
    RateSays(t.both + t.rightOnly, t.opportunities);
    hide TotalsOf, Rate;
  }

  // ----- the order of strata -----

  /** The wavelength that names a band. */
  function Metres(band: Band): nat {
    match band
    case M160 => 160 case M80 => 80 case M60 => 60 case M40 => 40 case M30 => 30 case M20 => 20
    case M17 => 17 case M15 => 15 case M12 => 12 case M10 => 10 case M6 => 6 case M2 => 2
  }

  /** Strata are listed by direction, longer waves first, then by mode, kind and source. */
  lemma StrataByKey(a: Stratum, b: Stratum)
    ensures a.direction == Transmit && b.direction == Receive ==> StratumLess(a, b) && !StratumLess(b, a)
    ensures a.direction == b.direction && Metres(a.band) > Metres(b.band) ==> StratumLess(a, b) && !StratumLess(b, a)
    ensures a.direction == b.direction && a.band == b.band ==>
              && (a.mode != b.mode && IdLess(a.mode, b.mode) ==> StratumLess(a, b))
              && (a.mode == b.mode && a.kind != b.kind && (a.kind == LocalDecode || b.kind == ImportedSpot) ==>
                    StratumLess(a, b) && !StratumLess(b, a))
              && (a.mode == b.mode && a.kind == b.kind ==>
                    (StratumLess(a, b) <==> IdLess(SourceKey(a.source), SourceKey(b.source))))
  {
    hide IdLess, SourceKey;
  }
}
