/** Reporter activity favours neither antenna: exchanging left and right mirrors every row and summary. */
module ActivitySwap {
  import opened Prelude
  import opened Records
  import opened Alignment
  import opened ComparisonBlocks
  import opened Comparison
  import opened ComparisonSwap
  import opened Activity
  import opened ActivityPairs

  function SwapRate(r: CycleRate): CycleRate {
    r.(side := if r.side.Some? then Some(SwapSide(r.side.value)) else None)
  }

  function SwapOutcome(outcome: JointOutcome): JointOutcome {
    match outcome
    case HeardBoth => HeardBoth
    case LeftOnly => RightOnly
    case RightOnly => LeftOnly
    case HeardNeither => HeardNeither
  }

  function SwapReceivers(receivers: map<string, JointReceiver>): map<string, JointReceiver> {
    map name | name in receivers :: JointReceiver(receivers[name].grid, SwapOutcome(receivers[name].outcome))
  }

  function SwapPair(p: PairedRate): PairedRate {
    PairedRate(p.stratum, p.block, SwapOrder(Some(p.order)).value, p.coverage, p.rightSlotId, p.leftSlotId,
               p.activeInBoth, p.rightHeard, p.leftHeard, p.rightRate, p.leftRate,
               p.both, p.rightOnly, p.leftOnly, p.neither, SwapReceivers(p.receivers))
  }

  function SwapTotals(t: JointTotals): JointTotals {
    t.(leftThenRight := t.rightThenLeft, rightThenLeft := t.leftThenRight, leftOnly := t.rightOnly,
       rightOnly := t.leftOnly)
  }

  function SwapSummary(j: JointSummary): JointSummary {
    j.(totals := SwapTotals(j.totals), leftRate := j.rightRate, rightRate := j.leftRate)
  }

  function SwapRates(rates: seq<CycleRate>): (swapped: seq<CycleRate>)
    ensures |swapped| == |rates|
  {
    seq(|rates|, i requires 0 <= i < |rates| => SwapRate(rates[i]))
  }

  function SwapPairs(paired: seq<PairedRate>): (swapped: seq<PairedRate>)
    ensures |swapped| == |paired|
  {
    seq(|paired|, i requires 0 <= i < |paired| => SwapPair(paired[i]))
  }

  function SwapActivity(a: ReporterActivity): ReporterActivity {
    ReporterActivity(a.cycles, SwapRates(a.rates), SwapPairs(a.paired),
                     map s | s in a.summaries :: SwapSummary(a.summaries[s]))
  }

  function SwapEvidence(e: Evidence): Evidence {
    e.(ctx := SwapContext(e.ctx))
  }

  // ----- rates -----

  lemma {:induction false} TimelineSwaps(ctx: Context, blocks: seq<Block>, slotId: string)
    requires ctx.left != ctx.right
    ensures TimelineOf(SwapContext(ctx), SwapBlocks(blocks), slotId) ==
              match TimelineOf(ctx, blocks, slotId)
              case None => None
              case Some((block, side)) => Some((block, if side.Some? then Some(SwapSide(side.value)) else None))
  {
    if blocks != [] {
      assert SwapBlocks(blocks)[1..] == SwapBlocks(blocks[1..]);
      TimelineSwaps(ctx, blocks[1..], slotId);
    }
  }

  lemma RateForSwaps(r: CycleRate, e: Evidence, s: Stratum, slot: AlignedSlot, cycles: seq<CensusCycle>)
    requires e.ctx.left != e.ctx.right && RateFor(r, e, s, slot, cycles)
    ensures RateFor(SwapRate(r), SwapEvidence(e), s, slot, cycles)
  {
    hide TimelineOf, Heard, BestCoverage, IsWspr, Rate, SwapBlocks, SwapSide;
    SwapKeepsCallsign(e.ctx);
    TimelineSwaps(e.ctx, e.ctx.blocks, slot.slotId);
  }

  lemma {:induction false} RatedSlotsSwap(e: Evidence, s: Stratum, slots: seq<AlignedSlot>)
    ensures RatedSlots(SwapEvidence(e), s, slots) == RatedSlots(e, s, slots)
  {
    if slots != [] {
      SwapKeepsCallsign(e.ctx);
      hide SwapContext, ObservedDirections, DirectionOf;
      RatedSlotsSwap(e, s, slots[..|slots| - 1]);
    }
  }

  lemma {:induction false} RatedCyclesSwap(e: Evidence, strata: seq<Stratum>, slots: seq<AlignedSlot>)
    ensures RatedCycles(SwapEvidence(e), strata, slots) == RatedCycles(e, strata, slots)
  {
    if strata != [] {
      hide SwapEvidence, RatedSlots;
      RatedCyclesSwap(e, strata[..|strata| - 1], slots);
      RatedSlotsSwap(e, strata[|strata| - 1], slots);
    }
  }

  lemma RatesMatchSwaps(rates: seq<CycleRate>, of: seq<(Stratum, AlignedSlot)>, e: Evidence, cycles: seq<CensusCycle>)
    requires e.ctx.left != e.ctx.right && RatesMatch(rates, of, e, cycles)
    ensures RatesMatch(SwapRates(rates), of, SwapEvidence(e), cycles)
  {
    hide RateFor, SwapRate, SwapEvidence;
    forall i | 0 <= i < |rates|
      ensures RateFor(SwapRates(rates)[i], SwapEvidence(e), of[i].0, of[i].1, cycles)
    {
      RateForSwaps(rates[i], e, of[i].0, of[i].1, cycles);
    }
  }

  lemma AllCountedSwaps(rates: seq<CycleRate>, cycles: seq<CensusCycle>)
    requires AllCounted(rates, cycles)
    ensures AllCounted(SwapRates(rates), cycles)
  {
    hide Rate;
  }

  lemma {:induction false} FirstRateSwaps(rates: seq<CycleRate>, s: Stratum, block: nat, side: Side)
    ensures FirstRate(SwapRates(rates), s, block, SwapSide(side)) == FirstRate(rates, s, block, side)
  {
    if rates != [] {
      var n := |rates| - 1;
      assert SwapRates(rates)[..n] == SwapRates(rates[..n]);
      FirstRateSwaps(rates[..n], s, block, side);
    }
  }

  // ----- pairs -----

  /** Two rows of one stratum without known coverage lack it for the same reason. */
  lemma UnknownForOneReason(l: CycleRate, r: CycleRate, e: Evidence, s: Stratum, a: AlignedSlot, b: AlignedSlot,
                            cycles: seq<CensusCycle>)
    requires RateFor(l, e, s, a, cycles) && RateFor(r, e, s, b, cycles)
    ensures l.coverage.Unknown? && r.coverage.Unknown? ==> l.coverage == r.coverage
  {
    hide TimelineOf, Heard, IsWspr, Rate, CoversCycle, CoverageRank;
  }

  lemma CombinedCoverageSwaps(a: Coverage, b: Coverage)
    requires a.Unknown? && b.Unknown? ==> a == b
    ensures CombinedCoverage(b, a) == CombinedCoverage(a, b)
  {
  }

  lemma WithOutcomeSwaps(receivers: map<string, JointReceiver>, outcome: JointOutcome)
    ensures WithOutcome(SwapReceivers(receivers), SwapOutcome(outcome)) == WithOutcome(receivers, outcome)
  {
  }

  lemma ReceiversSwap(left: Roster, right: Roster, leftHeard: set<string>, rightHeard: set<string>)
    ensures Receivers(right, left, rightHeard, leftHeard)
              == SwapReceivers(Receivers(left, right, leftHeard, rightHeard))
  {
    assert right.Keys * left.Keys == left.Keys * right.Keys;
  }

  lemma SwapReceiversKeys(receivers: map<string, JointReceiver>)
    ensures SwapReceivers(receivers).Keys == receivers.Keys && |SwapReceivers(receivers)| == |receivers|
  {
    assert SwapReceivers(receivers).Keys == receivers.Keys;
    assert |SwapReceivers(receivers).Keys| == |SwapReceivers(receivers)| && |receivers.Keys| == |receivers|;
  }

  lemma PairRowsSwap(left: CycleRate, right: CycleRate, block: nat, order: Order, cycles: seq<CensusCycle>)
    requires Counted(left, cycles) && Counted(right, cycles) && left.stratum == right.stratum
    requires left.coverage.Unknown? && right.coverage.Unknown? ==> left.coverage == right.coverage
    requires Counted(SwapRate(left), cycles) && Counted(SwapRate(right), cycles)
    ensures PairRows(SwapRate(right), SwapRate(left), block, SwapOrder(Some(order)).value, cycles)
            == SwapPair(PairRows(left, right, block, order, cycles))
  {
    hide WithOutcome, SwapReceivers, Receivers, CombinedCoverage, Rate, Counted;
    var receivers := PairRows(left, right, block, order, cycles).receivers;
    ReceiversSwap(RosterOf(left, cycles), RosterOf(right, cycles), left.heard, right.heard);
    SwapReceiversKeys(receivers);
    WithOutcomeSwaps(receivers, HeardBoth);
    WithOutcomeSwaps(receivers, LeftOnly);
    WithOutcomeSwaps(receivers, RightOnly);
    WithOutcomeSwaps(receivers, HeardNeither);
    CombinedCoverageSwaps(left.coverage, right.coverage);
    EmptySwaps();
  }

  lemma EmptySwaps()
    ensures SwapReceivers(map[]) == map[]
  {
  }

  /** Two rows of one stratum that are both without known coverage agree on why. */
  predicate SameReason(a: CycleRate, b: CycleRate) {
    a.stratum == b.stratum && a.coverage.Unknown? && b.coverage.Unknown? ==> a.coverage == b.coverage
  }

  ghost predicate OneReason(rates: seq<CycleRate>) {
    forall i, j :: 0 <= i < |rates| && 0 <= j < |rates| ==> SameReason(rates[i], rates[j])
  }

  lemma MatchedRatesHaveOneReason(rates: seq<CycleRate>, of: seq<(Stratum, AlignedSlot)>, e: Evidence,
                                  cycles: seq<CensusCycle>)
    requires RatesMatch(rates, of, e, cycles)
    ensures OneReason(rates)
  {
    hide RateFor;
    forall i, j | 0 <= i < |rates| && 0 <= j < |rates|
      ensures SameReason(rates[i], rates[j])
    {
      RateIsOfItsStratum(rates[i], e, of[i].0, of[i].1, cycles);
      RateIsOfItsStratum(rates[j], e, of[j].0, of[j].1, cycles);
      if rates[i].stratum == rates[j].stratum {
        UnknownForOneReason(rates[i], rates[j], e, of[i].0, of[i].1, of[j].1, cycles);
      }
    }
  }

  lemma RateIsOfItsStratum(r: CycleRate, e: Evidence, s: Stratum, slot: AlignedSlot, cycles: seq<CensusCycle>)
    requires RateFor(r, e, s, slot, cycles)
    ensures r.stratum == s
  {
  }

  lemma PairAtSwaps(block: Block, s: Stratum, rates: seq<CycleRate>, cycles: seq<CensusCycle>)
    requires AllCounted(rates, cycles) && AllCounted(SwapRates(rates), cycles) && OneReason(rates) && block.order.Some?
    ensures PairAt(SwapBlock(block), s, SwapRates(rates), cycles) ==
              match PairAt(block, s, rates, cycles) case None => None case Some(p) => Some(SwapPair(p))
  {
    hide PairRows, SwapPair, FirstRate, SwapRate, Counted;
    FirstRateSwaps(rates, s, block.index, Left);
    FirstRateSwaps(rates, s, block.index, Right);
    var left, right := FirstRate(rates, s, block.index, Left), FirstRate(rates, s, block.index, Right);
    if left.Some? && right.Some? {
      assert SameReason(rates[left.value], rates[right.value]);
      PairRowsSwap(rates[left.value], rates[right.value], block.index, block.order.value, cycles);
    }
  }

  lemma {:induction false} PairsInSwap(block: Block, strata: seq<Stratum>, rates: seq<CycleRate>,
                                       cycles: seq<CensusCycle>)
    requires AllCounted(rates, cycles) && AllCounted(SwapRates(rates), cycles) && OneReason(rates) && block.order.Some?
    ensures PairsIn(SwapBlock(block), strata, SwapRates(rates), cycles)
              == SwapPairs(PairsIn(block, strata, rates, cycles))
  {
    if strata != [] {
      hide PairAt, SwapPair, OneReason, AllCounted;
      PairsInSwap(block, strata[..|strata| - 1], rates, cycles);
      PairAtSwaps(block, strata[|strata| - 1], rates, cycles);
    }
  }

  lemma SwapPairsConcat(a: seq<PairedRate>, b: seq<PairedRate>)
    ensures SwapPairs(a + b) == SwapPairs(a) + SwapPairs(b)
  {
  }

  lemma EligibleStaysOrdered(blocks: seq<Block>)
    requires EligibleAreOrdered(blocks)
    ensures EligibleAreOrdered(SwapBlocks(blocks))
  {
    forall i | 0 <= i < |blocks|
      ensures SwapBlocks(blocks)[i].eligibility == Eligible ==> SwapBlocks(blocks)[i].order.Some?
    {
      assert blocks[i] in blocks;
    }
  }

  lemma {:induction false} PairsSwap(blocks: seq<Block>, strata: seq<Stratum>, rates: seq<CycleRate>,
                                     cycles: seq<CensusCycle>)
    requires AllCounted(rates, cycles) && AllCounted(SwapRates(rates), cycles) && OneReason(rates)
    requires EligibleAreOrdered(blocks) && EligibleAreOrdered(SwapBlocks(blocks))
    ensures PairsOf(SwapBlocks(blocks), strata, SwapRates(rates), cycles)
              == SwapPairs(PairsOf(blocks, strata, rates, cycles))
  {
    if blocks != [] {
      var n := |blocks| - 1;
      hide PairsIn, SwapPairs, OneReason, AllCounted, EligibleAreOrdered;
      EligibleInit(blocks);
      EligibleInit(SwapBlocks(blocks));
      assert SwapBlocks(blocks)[..n] == SwapBlocks(blocks[..n]);
      PairsSwap(blocks[..n], strata, rates, cycles);
      if blocks[n].eligibility == Eligible {
        PairsInSwap(blocks[n], strata, rates, cycles);
        SwapPairsConcat(PairsOf(blocks[..n], strata, rates, cycles), PairsIn(blocks[n], strata, rates, cycles));
      }
    }
  }

  lemma EligibleInit(blocks: seq<Block>)
    requires EligibleAreOrdered(blocks) && blocks != []
    ensures EligibleAreOrdered(blocks[..|blocks| - 1])
    ensures blocks[|blocks| - 1].eligibility == Eligible ==> blocks[|blocks| - 1].order.Some?
  {
  }

  // ----- summaries -----

  lemma {:induction false} RowsInSwap(rows: seq<PairedRate>, s: Stratum)
    ensures RowsIn(SwapPairs(rows), s) == SwapPairs(RowsIn(rows, s))
  {
    if rows != [] {
      var n := |rows| - 1;
      assert SwapPairs(rows)[..n] == SwapPairs(rows[..n]);
      hide SwapReceivers;
      RowsInSwap(rows[..n], s);
    }
  }

  lemma {:induction false} TotalsSwap(rows: seq<PairedRate>)
    ensures TotalsOf(SwapPairs(rows)) == SwapTotals(TotalsOf(rows))
  {
    if rows != [] {
      var n := |rows| - 1;
      assert SwapPairs(rows)[..n] == SwapPairs(rows[..n]);
      TotalsSwap(rows[..n]);
      SwapReceiversKeys(rows[n].receivers);
      hide SwapReceivers;
    }
  }

  lemma {:induction false} CoverageStays(rows: seq<PairedRate>)
    requires rows != []
    ensures CoverageOf(SwapPairs(rows)) == CoverageOf(rows)
  {
    if |rows| > 1 {
      var n := |rows| - 1;
      assert SwapPairs(rows)[..n] == SwapPairs(rows[..n]);
      hide CombinedCoverage, SwapReceivers;
      CoverageStays(rows[..n]);
    }
  }

  lemma SummarySwaps(rows: seq<PairedRate>)
    requires rows != []
    ensures SwapPairs(rows) != [] && SummaryOf(SwapPairs(rows)) == SwapSummary(SummaryOf(rows))
  {
    hide TotalsOf, CoverageOf, Rate;
    TotalsSwap(rows);
    CoverageStays(rows);
  }

  lemma SummariesSwap(summaries: map<Stratum, JointSummary>, rows: seq<PairedRate>)
    requires Summarized(summaries, rows)
    ensures Summarized(map s | s in summaries :: SwapSummary(summaries[s]), SwapPairs(rows))
    ensures StrataIn(SwapPairs(rows)) == StrataIn(rows)
  {
    hide SummaryOf, RowsIn, SwapSummary;
    forall s | s in summaries
      ensures RowsIn(SwapPairs(rows), s) != []
      ensures SwapSummary(summaries[s]) == SummaryOf(RowsIn(SwapPairs(rows), s))
    {
      RowsInSwap(rows, s);
      SummarySwaps(RowsIn(rows, s));
    }
    forall s
      ensures s in StrataIn(SwapPairs(rows)) <==> s in StrataIn(rows)
    {
      if s in StrataIn(rows) {
        var i :| 0 <= i < |rows| && rows[i].stratum == s;
        assert SwapPairs(rows)[i] in SwapPairs(rows);
      }
      if s in StrataIn(SwapPairs(rows)) {
        var i :| 0 <= i < |rows| && SwapPairs(rows)[i].stratum == s;
        assert rows[i] in rows;
      }
    }
  }

  lemma {:induction false} SwappedAccounts(p: PairedRate)
    requires Accounts(p)
    ensures Accounts(SwapPair(p))
  {
    SwapReceiversKeys(p.receivers);
    hide SwapReceivers;
  }

  /**
   Naming the antennas the other way round mirrors the analysis of reporter activity: in every paired row and summary
   the one-sided outcomes, heard counts, rates, slots and block orders are exchanged, and nothing else changes.
   */
  lemma ActivityFavoursNeitherAntenna(a: ReporterActivity, e: Evidence, strata: seq<Stratum>, slots: seq<AlignedSlot>)
    requires e.ctx.left != e.ctx.right
    requires EligibleAreOrdered(e.ctx.blocks) && Sound(a, e, strata, slots)
    ensures EligibleAreOrdered(SwapEvidence(e).ctx.blocks)
    ensures Sound(SwapActivity(a), SwapEvidence(e), strata, slots)
  {
    hide RatesMatch, AllCounted, PairsOf, Accounts, Summarized, StrataIn, RatedCycles, SwapPairs, SwapRates,
         SwapContext, SwapSummary, EligibleAreOrdered, SwapBlocks, OneReason;
    var of := RatedCycles(e, strata, slots);
    SwapKeepsCallsign(e.ctx);
    EligibleStaysOrdered(e.ctx.blocks);
    RatedCyclesSwap(e, strata, slots);
    RatesMatchSwaps(a.rates, of, e, a.cycles);
    AllCountedSwaps(a.rates, a.cycles);
    MatchedRatesHaveOneReason(a.rates, of, e, a.cycles);
    PairsSwap(e.ctx.blocks, strata, a.rates, a.cycles);
    SummariesSwap(a.summaries, a.paired);
    SwappedPairsAccount(a.paired);
  }

  lemma SwappedPairsAccount(paired: seq<PairedRate>)
    requires forall p :: p in paired ==> Accounts(p)
    ensures forall p :: p in SwapPairs(paired) ==> Accounts(p)
  {
    hide SwapPair, Accounts;
    forall p | p in SwapPairs(paired)
      ensures Accounts(p)
    {
      var i :| 0 <= i < |paired| && p == SwapPair(paired[i]);
      assert paired[i] in paired;
      SwappedAccounts(paired[i]);
    }
  }
}
