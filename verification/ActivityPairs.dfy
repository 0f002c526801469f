/** Joint receiver outcomes: what the receivers active under both antennas heard, per block and per stratum. */
module ActivityPairs {
  import opened Prelude
  import opened Records
  import opened Alignment
  import opened Attribution
  import opened ComparisonBlocks
  import opened Bags
  import opened Comparison
  import opened ComparisonKeys
  import opened Activity

  // ----- one pair of rows -----

  /** The first row of a stratum in a block on a side. */
  function FirstRate(rates: seq<CycleRate>, s: Stratum, block: nat, side: Side): (i: Option<nat>)
    ensures i.Some? ==> i.value < |rates| && IsRateOf(rates[i.value], s, block, side)
    ensures i.None? ==> forall r :: r in rates ==> !IsRateOf(r, s, block, side)
  {
    if rates == [] then None
    else
      var before := FirstRate(rates[..|rates| - 1], s, block, side);
      if before.Some? then before
      else if IsRateOf(rates[|rates| - 1], s, block, side) then Some(|rates| - 1)
      else None
  }

  predicate IsRateOf(r: CycleRate, s: Stratum, block: nat, side: Side) {
    r.stratum == s && r.block == Some(block) && r.side == Some(side)
  }

  function JointOutcomeOf(leftHeard: bool, rightHeard: bool): JointOutcome {
    match (leftHeard, rightHeard)
    case (true, true) => HeardBoth
    case (true, false) => LeftOnly
    case (false, true) => RightOnly
    case (false, false) => HeardNeither
  }

  function CommonGrid(left: Roster, right: Roster, name: string): Option<string> {
    var l := if name in left then left[name].grid else None;
    var r := if name in right then right[name].grid else None;
    if l.Some? && r.Some? then (if l == r then l else None)
    else if l.Some? then l
    else r
  }

  function Receivers(left: Roster, right: Roster, leftHeard: set<string>, rightHeard: set<string>)
    : map<string, JointReceiver>
  {
    map name | name in left.Keys * right.Keys ::
      JointReceiver(CommonGrid(left, right, name), JointOutcomeOf(name in leftHeard, name in rightHeard))
  }

  function WithOutcome(receivers: map<string, JointReceiver>, outcome: JointOutcome): set<string> {
    set name | name in receivers && receivers[name].outcome == outcome
  }

  ghost predicate AllCounted(rates: seq<CycleRate>, cycles: seq<CensusCycle>) {
    forall i :: 0 <= i < |rates| ==> Counted(rates[i], cycles)
  }

  function RosterOf(r: CycleRate, cycles: seq<CensusCycle>): Roster
    requires Counted(r, cycles)
  {
    if r.censusIndex.Some? then cycles[r.censusIndex.value].reporters else map[]
  }

  function PairRows(left: CycleRate, right: CycleRate, block: nat, order: Order, cycles: seq<CensusCycle>): PairedRate
    requires Counted(left, cycles) && Counted(right, cycles)
  {
    var receivers :=
      if left.censusIndex.Some? && right.censusIndex.Some? then
        Receivers(RosterOf(left, cycles), RosterOf(right, cycles), left.heard, right.heard)
      else map[];
    var both, leftOnly := |WithOutcome(receivers, HeardBoth)|, |WithOutcome(receivers, LeftOnly)|;
    var rightOnly, neither := |WithOutcome(receivers, RightOnly)|, |WithOutcome(receivers, HeardNeither)|;
    PairedRate(left.stratum, block, order, CombinedCoverage(left.coverage, right.coverage), left.slotId, right.slotId,
               |receivers|, both + leftOnly, both + rightOnly, Rate(both + leftOnly, |receivers|),
               Rate(both + rightOnly, |receivers|),
               both, leftOnly, rightOnly, neither, receivers)
  }

  function PairAt(block: Block, s: Stratum, rates: seq<CycleRate>, cycles: seq<CensusCycle>): Option<PairedRate>
    requires AllCounted(rates, cycles) && block.order.Some?
  {
    var left, right := FirstRate(rates, s, block.index, Left), FirstRate(rates, s, block.index, Right);
    if left.None? || right.None? then None
    else Some(PairRows(rates[left.value], rates[right.value], block.index, block.order.value, cycles))
  }

  // ----- every common receiver has one outcome -----

  lemma OutcomesPartition(receivers: map<string, JointReceiver>)
    ensures |receivers| == |WithOutcome(receivers, HeardBoth)| + |WithOutcome(receivers, LeftOnly)|
                           + |WithOutcome(receivers, RightOnly)| + |WithOutcome(receivers, HeardNeither)|
  {
    var b, l, r, n := WithOutcome(receivers, HeardBoth), WithOutcome(receivers, LeftOnly),
                      WithOutcome(receivers, RightOnly), WithOutcome(receivers, HeardNeither);
    assert b !! l && (b + l) !! r && (b + l + r) !! n;
    assert receivers.Keys == b + l + r + n;
    assert |b + l| == |b| + |l|;
    assert |b + l + r| == |b + l| + |r|;
    assert |b + l + r + n| == |b + l + r| + |n|;
    assert |receivers.Keys| == |receivers|;
  }

  lemma HeardAreIntersections(left: Roster, right: Roster, leftHeard: set<string>, rightHeard: set<string>)
    ensures var receivers := Receivers(left, right, leftHeard, rightHeard);
            var common := left.Keys * right.Keys;
            && |receivers| == |common|
            && |WithOutcome(receivers, HeardBoth)| + |WithOutcome(receivers, LeftOnly)| == |common * leftHeard|
            && |WithOutcome(receivers, HeardBoth)| + |WithOutcome(receivers, RightOnly)| == |common * rightHeard|
            && WithOutcome(receivers, HeardBoth) == common * leftHeard * rightHeard
  {
    var receivers := Receivers(left, right, leftHeard, rightHeard);
    var common := left.Keys * right.Keys;
    assert receivers.Keys == common;
    assert |receivers.Keys| == |receivers|;
    var b, l, r := WithOutcome(receivers, HeardBoth), WithOutcome(receivers, LeftOnly),
        WithOutcome(receivers, RightOnly);
    forall name
      ensures name in b <==> name in common && name in leftHeard && name in rightHeard
      ensures name in l <==> name in common && name in leftHeard && name !in rightHeard
      ensures name in r <==> name in common && name !in leftHeard && name in rightHeard
    {
    }
    hide Receivers, WithOutcome;
    Halves(common * leftHeard, b, l);
    Halves(common * rightHeard, b, r);
    assert b == common * leftHeard * rightHeard;
  }

  lemma Halves<T>(whole: set<T>, a: set<T>, b: set<T>)
    requires forall x :: x in whole <==> x in a || x in b
    requires a !! b
    ensures |whole| == |a| + |b|
  {
    assert whole == a + b;
  }

  /** The accounts every paired row keeps. */
  ghost predicate Accounts(p: PairedRate) {
    && p.activeInBoth == p.both + p.leftOnly + p.rightOnly + p.neither == |p.receivers|
    && p.leftHeard == p.both + p.leftOnly <= p.activeInBoth
    && p.rightHeard == p.both + p.rightOnly <= p.activeInBoth
  }

  /**
   The four outcomes partition the receivers active under both antennas, each side's count is its
   intersection with them, and the coverage is the poorer of the two.
   */
  lemma PairsAccount(left: CycleRate, right: CycleRate, block: nat, order: Order, cycles: seq<CensusCycle>)
    requires Counted(left, cycles) && Counted(right, cycles)
    ensures var p := PairRows(left, right, block, order, cycles);
            var common := RosterOf(left, cycles).Keys * RosterOf(right, cycles).Keys;
            && Accounts(p)
            && p.receivers.Keys == common
            && p.leftHeard == |common * left.heard| && p.rightHeard == |common * right.heard|
            && CoverageRank(p.coverage) == Min(CoverageRank(left.coverage), CoverageRank(right.coverage))
  {
    var p := PairRows(left, right, block, order, cycles);
    hide WithOutcome, CombinedCoverage, CoverageRank, Rate, CommonGrid;
    OutcomesPartition(p.receivers);
    CombinedRankIsLeast(left.coverage, right.coverage);
    if left.censusIndex.Some? && right.censusIndex.Some? {
      HeardAreIntersections(RosterOf(left, cycles), RosterOf(right, cycles), left.heard, right.heard);
    } else {
      var common := RosterOf(left, cycles).Keys * RosterOf(right, cycles).Keys;
      assert common == {};
      assert common * left.heard == {} && common * right.heard == {};
    }
  }

  // ----- all pairs -----

  predicate EligibleAreOrdered(blocks: seq<Block>) {
    forall b :: b in blocks && b.eligibility == Eligible ==> b.order.Some?
  }

  ghost function PairsIn(block: Block, strata: seq<Stratum>, rates: seq<CycleRate>, cycles: seq<CensusCycle>)
    : seq<PairedRate>
    requires AllCounted(rates, cycles) && block.order.Some?
  {
    if strata == [] then []
    else
      var s := strata[|strata| - 1];
      var before := PairsIn(block, strata[..|strata| - 1], rates, cycles);
      var pair := PairAt(block, s, rates, cycles);
      if s.band == block.band && pair.Some? then before + [pair.value] else before
  }

  ghost function PairsOf(blocks: seq<Block>, strata: seq<Stratum>, rates: seq<CycleRate>, cycles: seq<CensusCycle>)
    : seq<PairedRate>
    requires AllCounted(rates, cycles) && EligibleAreOrdered(blocks)
  {
    if blocks == [] then []
    else
      var n := |blocks| - 1;
      PairsOf(blocks[..n], strata, rates, cycles) +
      (if blocks[n].eligibility == Eligible then PairsIn(blocks[n], strata, rates, cycles) else [])
  }

  method PairRates(blocks: seq<Block>, strata: seq<Stratum>, rates: seq<CycleRate>, cycles: seq<CensusCycle>)
    returns (paired: seq<PairedRate>)
    requires AllCounted(rates, cycles) && EligibleAreOrdered(blocks)
    ensures paired == PairsOf(blocks, strata, rates, cycles)
  {
    paired := [];
    hide PairAt;
    var i := 0;
    while i < |blocks|
      invariant 0 <= i <= |blocks|
      invariant paired == PairsOf(blocks[..i], strata, rates, cycles)
    {
      var block := blocks[i];
      assert blocks[..i + 1][..i] == blocks[..i];
      assert EligibleAreOrdered(blocks[..i + 1]);
      i := i + 1;
      if block.eligibility != Eligible {
        continue;
      }
      ghost var before := paired;
      var j := 0;
      while j < |strata|
        invariant 0 <= j <= |strata|
        invariant paired == before + PairsIn(block, strata[..j], rates, cycles)
      {
        var s := strata[j];
        assert strata[..j + 1][..j] == strata[..j];
        if s.band == block.band {
          var pair := PairAt(block, s, rates, cycles);
          if pair.Some? {
            paired := paired + [pair.value];
          }
        }
        j := j + 1;
      }
      assert strata[..|strata|] == strata;
    }
    assert blocks[..|blocks|] == blocks;
  }

  lemma {:induction false} PairsInAccount(block: Block, strata: seq<Stratum>, rates: seq<CycleRate>,
                                          cycles: seq<CensusCycle>)
    requires AllCounted(rates, cycles) && block.order.Some?
    ensures forall p :: p in PairsIn(block, strata, rates, cycles) ==> Accounts(p) && p.stratum in strata
  {
    if strata != [] {
      var n := |strata| - 1;
      PairsInAccount(block, strata[..n], rates, cycles);
      hide Accounts, PairRows;
      var s := strata[n];
      var left, right := FirstRate(rates, s, block.index, Left), FirstRate(rates, s, block.index, Right);
      if left.Some? && right.Some? {
        PairsAccount(rates[left.value], rates[right.value], block.index, block.order.value, cycles);
        PairHasStratum(rates[left.value], rates[right.value], block.index, block.order.value, cycles);
      }
    }
  }

  lemma PairHasStratum(left: CycleRate, right: CycleRate, block: nat, order: Order, cycles: seq<CensusCycle>)
    requires Counted(left, cycles) && Counted(right, cycles)
    ensures PairRows(left, right, block, order, cycles).stratum == left.stratum
  {
  }

  lemma {:induction false} AllPairsAccount(blocks: seq<Block>, strata: seq<Stratum>, rates: seq<CycleRate>,
                                           cycles: seq<CensusCycle>)
    requires AllCounted(rates, cycles) && EligibleAreOrdered(blocks)
    ensures forall p :: p in PairsOf(blocks, strata, rates, cycles) ==> Accounts(p) && p.stratum in strata
  {
    if blocks != [] {
      var n := |blocks| - 1;
      AllPairsAccount(blocks[..n], strata, rates, cycles);
      hide Accounts, PairsIn;
      if blocks[n].eligibility == Eligible {
        PairsInAccount(blocks[n], strata, rates, cycles);
      }
    }
  }

  // ----- summaries -----

  datatype JointTotals = JointTotals(
    known: nat, leftThenRight: nat, rightThenLeft: nat, unique: set<string>, opportunities: nat,
    both: nat, leftOnly: nat, rightOnly: nat, neither: nat)

  const NO_TOTALS: JointTotals := JointTotals(0, 0, 0, {}, 0, 0, 0, 0, 0)

  datatype JointSummary = JointSummary(
    coverage: Coverage, eligibleBlocks: nat, totals: JointTotals, leftRate: Option<real>, rightRate: Option<real>)

  function AddRow(t: JointTotals, p: PairedRate): JointTotals {
    JointTotals(t.known + One(!p.coverage.Unknown?), t.leftThenRight + One(p.order == LeftThenRight),
                t.rightThenLeft + One(p.order == RightThenLeft), t.unique + p.receivers.Keys,
                t.opportunities + p.activeInBoth, t.both + p.both, t.leftOnly + p.leftOnly,
                t.rightOnly + p.rightOnly, t.neither + p.neither)
  }

  function TotalsOf(rows: seq<PairedRate>): JointTotals {
    if rows == [] then NO_TOTALS else AddRow(TotalsOf(rows[..|rows| - 1]), rows[|rows| - 1])
  }

  function CoverageOf(rows: seq<PairedRate>): Coverage
    requires rows != []
  {
    if |rows| == 1 then rows[0].coverage
    else CombinedCoverage(CoverageOf(rows[..|rows| - 1]), rows[|rows| - 1].coverage)
  }

  function SummaryOf(rows: seq<PairedRate>): JointSummary
    requires rows != []
  {
    var t := TotalsOf(rows);
    JointSummary(CoverageOf(rows), |rows|, t, Rate(t.both + t.leftOnly, t.opportunities),
                 Rate(t.both + t.rightOnly, t.opportunities))
  }

  /** One pass over a stratum's rows fills its summary. */
  method SummarizeRows(rows: seq<PairedRate>) returns (summary: JointSummary)
    requires rows != []
    ensures summary == SummaryOf(rows)
  {
    var coverage := rows[0].coverage;
    var known: nat, leftThenRight: nat, rightThenLeft: nat, opportunities: nat := 0, 0, 0, 0;
    var both: nat, leftOnly: nat, rightOnly: nat, neither: nat := 0, 0, 0, 0;
    var unique: set<string> := {};
    hide CombinedCoverage, Rate, TotalsOf, CoverageOf;
    assert TotalsOf(rows[..0]) == NO_TOTALS by { NoTotals(rows); }
    var i := 0;
    while i < |rows|
      invariant 0 <= i <= |rows|
      invariant coverage == if i == 0 then rows[0].coverage else CoverageOf(rows[..i])
      invariant JointTotals(known, leftThenRight, rightThenLeft, unique, opportunities, both, leftOnly, rightOnly,
                            neither)
                == TotalsOf(rows[..i])
    {
      var row := rows[i];
      RowNext(rows, i);
      ghost var before := TotalsOf(rows[..i]);
      coverage := CombinedCoverage(coverage, row.coverage);
      if !row.coverage.Unknown? {
        known := known + 1;
      }
      if row.order == LeftThenRight {
        leftThenRight := leftThenRight + 1;
      } else {
        rightThenLeft := rightThenLeft + 1;
      }
      unique := unique + row.receivers.Keys;
      opportunities := opportunities + row.activeInBoth;
      both, leftOnly := both + row.both, leftOnly + row.leftOnly;
      rightOnly, neither := rightOnly + row.rightOnly, neither + row.neither;
      assert JointTotals(known, leftThenRight, rightThenLeft, unique, opportunities, both, leftOnly, rightOnly, neither)
          == AddRow(before, row);
      i := i + 1;
    }
    assert rows[..|rows|] == rows;
    summary := JointSummary(
      coverage, |rows|,
      JointTotals(known, leftThenRight, rightThenLeft, unique, opportunities, both, leftOnly, rightOnly, neither),
      Rate(both + leftOnly, opportunities), Rate(both + rightOnly, opportunities));
  }

  lemma NoTotals(rows: seq<PairedRate>)
    ensures TotalsOf(rows[..0]) == NO_TOTALS
  {
  }

  /** What one more row does; combining the first row's coverage with itself changes nothing. */
  lemma RowNext(rows: seq<PairedRate>, i: nat)
    requires i < |rows|
    ensures TotalsOf(rows[..i + 1]) == AddRow(TotalsOf(rows[..i]), rows[i])
    ensures CoverageOf(rows[..i + 1]) ==
              CombinedCoverage(if i == 0 then rows[0].coverage else CoverageOf(rows[..i]), rows[i].coverage)
  {
    assert rows[..i + 1][..i] == rows[..i];
  }

  function RowsIn(rows: seq<PairedRate>, s: Stratum): seq<PairedRate> {
    if rows == [] then []
    else
      var n := |rows| - 1;
      RowsIn(rows[..n], s) + (if rows[n].stratum == s then [rows[n]] else [])
  }

  function StrataIn(rows: seq<PairedRate>): set<Stratum> {
    set p | p in rows :: p.stratum
  }

  ghost predicate GroupedByStratum(grouped: map<Stratum, seq<PairedRate>>, rows: seq<PairedRate>) {
    && grouped.Keys == StrataIn(rows)
    && forall s :: RowsIn(rows, s) == if s in grouped then grouped[s] else []
  }

  lemma {:induction false} RowsInMembers(rows: seq<PairedRate>, s: Stratum)
    ensures forall p :: p in RowsIn(rows, s) <==> p in rows && p.stratum == s
  {
    if rows != [] {
      var n := |rows| - 1;
      RowsInMembers(rows[..n], s);
      forall p
        ensures p in rows <==> p in rows[..n] || p == rows[n]
      {
      }
    }
  }

  method GroupRows(rows: seq<PairedRate>) returns (grouped: map<Stratum, seq<PairedRate>>)
    ensures GroupedByStratum(grouped, rows)
  {
    grouped := map[];
    assert GroupedByStratum(map[], []);
    hide GroupedByStratum;
    var i := 0;
    while i < |rows|
      invariant 0 <= i <= |rows|
      invariant GroupedByStratum(grouped, rows[..i])
    {
      GroupNextRow(grouped, rows[..i], rows[i]);
      TakeNext(rows, i);
      var s := rows[i].stratum;
      grouped := grouped[s := (if s in grouped then grouped[s] else []) + [rows[i]]];
      i := i + 1;
    }
    assert rows[..|rows|] == rows;
  }

  lemma GroupedKeys(grouped: map<Stratum, seq<PairedRate>>, rows: seq<PairedRate>)
    requires GroupedByStratum(grouped, rows)
    ensures grouped.Keys == StrataIn(rows)
  {
  }

  lemma {:induction false} GroupHolds(grouped: map<Stratum, seq<PairedRate>>, rows: seq<PairedRate>, s: Stratum)
    requires GroupedByStratum(grouped, rows) && s in grouped
    ensures grouped[s] == RowsIn(rows, s) != []
  {
    RowsInMembers(rows, s);
    hide RowsIn;
    var p :| p in rows && p.stratum == s;
    assert p in RowsIn(rows, s);
  }

  ghost predicate Summarized(summaries: map<Stratum, JointSummary>, rows: seq<PairedRate>) {
    forall s :: s in summaries ==> RowsIn(rows, s) != [] && summaries[s] == SummaryOf(RowsIn(rows, s))
  }

  method SummarizeJointOutcomes(rows: seq<PairedRate>) returns (summaries: map<Stratum, JointSummary>)
    ensures summaries.Keys == StrataIn(rows)
    ensures Summarized(summaries, rows)
  {
    hide SummaryOf, RowsIn, StrataIn, GroupedByStratum;
    assert Summarized(map[], rows);
    hide Summarized;
    var grouped := GroupRows(rows);
    assert grouped.Keys == StrataIn(rows) by { GroupedKeys(grouped, rows); }
    summaries := map[];
    var remaining := grouped.Keys;
    while remaining != {}
      invariant remaining <= grouped.Keys && summaries.Keys == grouped.Keys - remaining
      invariant Summarized(summaries, rows)
      decreases |remaining|
    {
      var s :| s in remaining;
      remaining := remaining - {s};
      GroupHolds(grouped, rows, s);
      var summary := SummarizeRows(grouped[s]);
      SummarizedNext(summaries, rows, s);
      summaries := summaries[s := summary];
    }
  }

  lemma {:induction false} SummarizedNext(summaries: map<Stratum, JointSummary>, rows: seq<PairedRate>, s: Stratum)
    requires Summarized(summaries, rows) && RowsIn(rows, s) != []
    ensures Summarized(summaries[s := SummaryOf(RowsIn(rows, s))], rows)
  {
    hide SummaryOf, RowsIn;
  }

  lemma GroupNextRow(grouped: map<Stratum, seq<PairedRate>>, rows: seq<PairedRate>, p: PairedRate)
    requires GroupedByStratum(grouped, rows)
    ensures var known := if p.stratum in grouped then grouped[p.stratum] else [];
            GroupedByStratum(grouped[p.stratum := known + [p]], rows + [p])
  {
    StrataNext(rows, p);
    hide RowsIn, StrataIn;
    forall s
      ensures RowsIn(rows + [p], s) == if s == p.stratum then RowsIn(rows, s) + [p] else RowsIn(rows, s)
    {
      RowsInNext(rows, p, s);
    }
  }

  lemma {:induction false} RowsInNext(rows: seq<PairedRate>, p: PairedRate, s: Stratum)
    ensures RowsIn(rows + [p], s) == if s == p.stratum then RowsIn(rows, s) + [p] else RowsIn(rows, s)
  {
    assert (rows + [p])[..|rows|] == rows;
  }

  lemma StrataNext(rows: seq<PairedRate>, p: PairedRate)
    ensures StrataIn(rows + [p]) == StrataIn(rows) + {p.stratum}
  {
    forall q
      ensures q in rows + [p] <==> q in rows || q == p
    {
    }
  }

  /** Whenever every row accounts for its receivers, so does the summary; its coverage is the poorest of them. */
  lemma {:induction false} TotalsAccount(rows: seq<PairedRate>)
    requires forall p :: p in rows ==> Accounts(p)
    ensures var t := TotalsOf(rows);
            && t.opportunities == t.both + t.leftOnly + t.rightOnly + t.neither
            && t.leftThenRight + t.rightThenLeft == |rows|
            && t.known <= |rows|
            && |t.unique| <= t.opportunities
  {
    if rows != [] {
      var n := |rows| - 1;
      TotalsAccount(rows[..n]);
      var p := rows[n];
      assert p in rows;
      UnionSize(TotalsOf(rows[..n]).unique, p.receivers.Keys);
      assert |p.receivers.Keys| == |p.receivers|;
    }
  }

  lemma UnionSize<T>(a: set<T>, b: set<T>)
    ensures |a + b| <= |a| + |b|
  {
    assert a + b == a + (b - a);
    assert |a + (b - a)| == |a| + |b - a|;
    SubsetSize(b - a, b);
  }

  lemma {:induction false} CoverageIsPoorest(rows: seq<PairedRate>)
    requires rows != []
    ensures forall p :: p in rows ==> CoverageRank(CoverageOf(rows)) <= CoverageRank(p.coverage)
    ensures exists p :: p in rows && CoverageRank(CoverageOf(rows)) == CoverageRank(p.coverage)
  {
    if |rows| == 1 {
      assert rows[0] in rows;
    } else {
      var n := |rows| - 1;
      CoverageIsPoorest(rows[..n]);
      hide CoverageRank, CombinedCoverage;
      CombinedRankIsLeast(CoverageOf(rows[..n]), rows[n].coverage);
      var q :| q in rows[..n] && CoverageRank(CoverageOf(rows[..n])) == CoverageRank(q.coverage);
      assert q in rows && rows[n] in rows;
      forall p | p in rows
        ensures p in rows[..n] || p == rows[n]
      {
      }
    }
  }

  // ----- the summaries conserve the rows -----

  ghost function Opportunities(rows: seq<PairedRate>, strata: set<Stratum>): nat {
    if strata == {} then 0
    else
      var s := Pick(strata);
      Opportunities(rows, strata - {s}) + TotalsOf(RowsIn(rows, s)).opportunities
  }

  lemma {:induction false} OpportunitiesNext(rows: seq<PairedRate>, p: PairedRate, strata: set<Stratum>)
    ensures Opportunities(rows + [p], strata)
              == Opportunities(rows, strata) + (if p.stratum in strata then p.activeInBoth else 0)
  {
    if strata != {} {
      var s := Pick(strata);
      OpportunitiesNext(rows, p, strata - {s});
      var before := RowsIn(rows, s);
      assert (rows + [p])[..|rows|] == rows;
      if p.stratum == s {
        assert RowsIn(rows + [p], s) == before + [p];
        assert (before + [p])[..|before|] == before;
      } else {
        assert RowsIn(rows + [p], s) == before;
      }
    }
  }

  /** The summaries' opportunities add up to the rows' opportunities: no row is counted twice or dropped. */
  lemma {:induction false} SummariesConserveRows(rows: seq<PairedRate>, strata: set<Stratum>)
    requires StrataIn(rows) <= strata
    ensures Opportunities(rows, strata) == TotalsOf(rows).opportunities
  {
    if rows == [] {
      NoOpportunities(strata);
    } else {
      var n := |rows| - 1;
      assert rows[n] in rows;
      forall p | p in rows[..n]
        ensures p in rows
      {
      }
      hide Opportunities;
      SummariesConserveRows(rows[..n], strata);
      OpportunitiesNext(rows[..n], rows[n], strata);
      SplitLast(rows);
    }
  }

  lemma {:induction false} NoOpportunities(strata: set<Stratum>)
    ensures Opportunities([], strata) == 0
  {
    if strata != {} {
      NoOpportunities(strata - {Pick(strata)});
    }
  }

  // ----- the whole analysis -----

  datatype ReporterActivity = ReporterActivity(
    cycles: seq<CensusCycle>, rates: seq<CycleRate>, paired: seq<PairedRate>, summaries: map<Stratum, JointSummary>)

  function KindRank(kind: ObservationKind): nat {
    match kind
    case LocalDecode => 0
    case PublicReport => 1
    case ImportedSpot => 2
  }

  function SourceKey(source: RecordSource): string {
    match source
    case Operator => "operator"
    case WsjtxUdp => "wsjtx_udp"
    case WsjtxLog => "wsjtx_log"
    case Wsprnet => "wsprnet"
    case WsprLive => "wspr_live"
    case ImportedFile => "imported_file"
    case RigAdapter => "rig_adapter"
    case NoaaSwpc => "noaa_swpc"
    case Derived => "derived"
  }

  /** The order of the strata's sort keys. */
  predicate StratumLess(a: Stratum, b: Stratum) {
    if a.direction != b.direction then a.direction == Transmit
    else if a.band != b.band then BandRank(a.band) < BandRank(b.band)
    else if a.mode != b.mode then IdLess(a.mode, b.mode)
    else if a.kind != b.kind then KindRank(a.kind) < KindRank(b.kind)
    else IdLess(SourceKey(a.source), SourceKey(b.source))
  }

  lemma BandRanksDiffer(a: Band, b: Band)
    ensures BandRank(a) == BandRank(b) ==> a == b
  {
  }

  lemma StrataAreOrdered(a: Stratum, b: Stratum)
    ensures a != b ==> StratumLess(a, b) || StratumLess(b, a)
  {
    assert SourceKey(a.source) == SourceKey(b.source) ==> a.source == b.source;
    hide IdLess, SourceKey, BandRank;
    IdsAreOrdered(a.mode, b.mode);
    IdsAreOrdered(SourceKey(a.source), SourceKey(b.source));
    BandRanksDiffer(a.band, b.band);
  }

  lemma StratumOrderIsTransitive(a: Stratum, b: Stratum, c: Stratum)
    requires StratumLess(a, b) && StratumLess(b, c)
    ensures StratumLess(a, c)
  {
    hide IdLess, SourceKey, BandRank;
    BandRanksDiffer(a.band, b.band);
    if IdLess(a.mode, b.mode) && IdLess(b.mode, c.mode) {
      LessThroughLess(a.mode, b.mode, c.mode);
    }
    IdsAreOrdered(a.mode, b.mode);
    if IdLess(SourceKey(a.source), SourceKey(b.source)) && IdLess(SourceKey(b.source), SourceKey(c.source)) {
      LessThroughLess(SourceKey(a.source), SourceKey(b.source), SourceKey(c.source));
    }
  }

  /** The strata of a set, in the order of their keys. */
  ghost predicate Lists(strata: seq<Stratum>, all: set<Stratum>) {
    && (forall s :: s in strata <==> s in all)
    && (forall i, j :: 0 <= i < j < |strata| ==> StratumLess(strata[i], strata[j]))
  }

  method LeastStratum(all: set<Stratum>) returns (least: Stratum)
    requires all != {}
    ensures least in all && forall s :: s in all && s != least ==> StratumLess(least, s)
  {
    hide StratumLess;
    least :| least in all;
    var left := all - {least};
    while left != {}
      invariant left <= all && least in all && least !in left
      invariant forall s :: s in all && s !in left && s != least ==> StratumLess(least, s)
    {
      var s :| s in left;
      left := left - {s};
      StrataAreOrdered(least, s);
      if StratumLess(s, least) {
        forall c | c in all && c !in left && c != s
          ensures StratumLess(s, c)
        {
          if c != least {
            StratumOrderIsTransitive(s, least, c);
          }
        }
        least := s;
      }
    }
  }

  method ListStrata(all: set<Stratum>) returns (strata: seq<Stratum>)
    ensures Lists(strata, all)
  {
    hide StratumLess;
    strata := [];
    var remaining := all;
    while remaining != {}
      invariant remaining <= all && Lists(strata, all - remaining)
      invariant forall s, r :: s in strata && r in remaining ==> StratumLess(s, r)
      decreases |remaining|
    {
      var s := LeastStratum(remaining);
      remaining := remaining - {s};
      strata := strata + [s];
    }
    assert all - {} == all;
  }

  /** The accounts of the whole analysis of reporter activity. */
  ghost predicate Sound(a: ReporterActivity, e: Evidence, strata: seq<Stratum>, slots: seq<AlignedSlot>)
    requires EligibleAreOrdered(e.ctx.blocks)
  {
    && RatesMatch(a.rates, RatedCycles(e, strata, slots), e, a.cycles)
    && AllCounted(a.rates, a.cycles)
    && a.paired == PairsOf(e.ctx.blocks, strata, a.rates, a.cycles)
    && (forall p :: p in a.paired ==> Accounts(p))
    && a.summaries.Keys == StrataIn(a.paired)
    && Summarized(a.summaries, a.paired)
  }

  const NO_ACTIVITY: ReporterActivity := ReporterActivity([], [], [], map[])

  /** Without adapter records and declared directions there is nothing to analyze. */
  method AnalyzeReporterActivity(e: Evidence, adapterRecords: nat, slots: seq<AlignedSlot>)
    returns (a: ReporterActivity, ghost strata: seq<Stratum>)
    requires EligibleAreOrdered(e.ctx.blocks)
    ensures adapterRecords == 0 && e.declared == map[] ==> a == NO_ACTIVITY
    ensures adapterRecords != 0 || e.declared != map[] ==>
              && Lists(strata, StrataHeard(e.ctx.callsign, e.cs))
              && Sound(a, e, strata, InSequence(slots))
              && exists indices :: Indexed(a.cycles, indices, e)
  {
    if adapterRecords == 0 && e.declared == map[] {
      return NO_ACTIVITY, [];
    }
    var sorted := InSequence(slots);
    var heard, heardOn := CollectHeard(e.ctx.callsign, e.cs);
    var list := ListStrata(heard);
    strata := list;
    var cycles, rates := RateCycles(e, list, sorted, heardOn);
    RatesAreCounted(rates, RatedCycles(e, list, sorted), e, cycles);
    var paired := PairRates(e.ctx.blocks, list, rates, cycles);
    AllPairsAccount(e.ctx.blocks, list, rates, cycles);
    var summaries := SummarizeJointOutcomes(paired);
    hide RatesMatch, AllCounted, PairsOf, Accounts, Summarized, StrataIn, RatedCycles, Indexed, StrataHeard, Lists,
         InSequence;
    a := ReporterActivity(cycles, rates, paired, summaries);
  }

  lemma RatesAreCounted(rates: seq<CycleRate>, of: seq<(Stratum, AlignedSlot)>, e: Evidence, cycles: seq<CensusCycle>)
    requires RatesMatch(rates, of, e, cycles)
    ensures AllCounted(rates, cycles)
  {
    hide Counted, TimelineOf, Heard;
  }

  /**
   In every summary of rows that account, the outcomes partition the opportunities, and both detection rates are
   fractions.
   */
  lemma {:induction false} SummariesAccount(paired: seq<PairedRate>, s: Stratum)
    requires forall p :: p in paired ==> Accounts(p)
    ensures RowsIn(paired, s) != [] ==>
              var j := SummaryOf(RowsIn(paired, s));
              && j.totals.opportunities == j.totals.both + j.totals.leftOnly + j.totals.rightOnly + j.totals.neither
              && j.totals.leftThenRight + j.totals.rightThenLeft == j.eligibleBlocks
              && |j.totals.unique| <= j.totals.opportunities
              && (forall p :: p in paired && p.stratum == s ==> CoverageRank(j.coverage) <= CoverageRank(p.coverage))
              && (exists p :: p in paired && p.stratum == s && CoverageRank(j.coverage) == CoverageRank(p.coverage))
              && (j.leftRate.Some? ==> 0.0 <= j.leftRate.value <= 1.0)
              && (j.rightRate.Some? ==> 0.0 <= j.rightRate.value <= 1.0)
  {
    var rows := RowsIn(paired, s);
    hide RowsIn, Rate, CoverageRank, CoverageOf, TotalsOf, Accounts;
    RowsInMembers(paired, s);
    if rows != [] {
      TotalsAccount(rows);
      CoverageIsPoorest(rows);
      var t := TotalsOf(rows);
      RatesAreFractions(t.both + t.leftOnly, t.opportunities);
      RatesAreFractions(t.both + t.rightOnly, t.opportunities);
    }
  }
}
