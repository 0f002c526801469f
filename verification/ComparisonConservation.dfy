/** The comparison loses no evidence: what one accumulator drops, another one names. */
module ComparisonConservation {
  import opened Prelude
  import opened Records
  import opened Alignment
  import opened Attribution
  import opened ComparisonBlocks
  import opened Bags
  import opened Comparison

  // ----- one side, one group -----

  /** A side in conflict reports nothing else; any other side accounts for each of its observations. */
  lemma SideAccounts(s: seq<Observation>)
    ensures var r := Resolve(s);
            && !(r.finite.Some? && r.missingSnr)
            && (r.conflict ==> s != [] && r == Resolved(None, false, 0, true))
            && (!r.conflict ==> |s| == One(r.finite.Some?) + One(r.missingSnr) + r.duplicates)
            && (s == [] <==> r == Resolved(None, false, 0, false))
  {
  }

  /** Observations on the sides of a group that are in conflict. */
  function Conflicted(g: Group): nat {
    (if Resolve(g.left).conflict then |g.left| else 0) + (if Resolve(g.right).conflict then |g.right| else 0)
  }

  /** A finite left observation is paired, unmatched, or faces a conflict; and so on the right. */
  lemma GroupAccounts(g: Group)
    ensures var c := Contribution(g);
            && c.leftFinite ==
                 c.paired + c.unmatchedLeft + One(Resolve(g.left).finite.Some? && Resolve(g.right).conflict)
            && c.rightFinite ==
                 c.paired + c.unmatchedRight + One(Resolve(g.right).finite.Some? && Resolve(g.left).conflict)
            && |g.left| + |g.right| ==
                 c.leftFinite + c.rightFinite + c.missingLeft + c.missingRight + c.duplicates + Conflicted(g)
  {
    SideAccounts(g.left);
    SideAccounts(g.right);
    hide Resolve;
  }

  // ----- sums over sets of groups -----

  /** Groups whose finite left observation faces a right side in conflict. */
  function LeftFacingConflict(groups: map<GroupKey, Group>, keys: set<GroupKey>): set<GroupKey>
    requires keys <= groups.Keys
  {
    set k | k in keys && Resolve(groups[k].left).finite.Some? && Resolve(groups[k].right).conflict
  }

  function RightFacingConflict(groups: map<GroupKey, Group>, keys: set<GroupKey>): set<GroupKey>
    requires keys <= groups.Keys
  {
    set k | k in keys && Resolve(groups[k].right).finite.Some? && Resolve(groups[k].left).conflict
  }

  ghost function Held(groups: map<GroupKey, Group>, keys: set<GroupKey>): nat
    requires keys <= groups.Keys
  {
    if keys == {} then 0
    else
      var k := Pick(keys);
      Held(groups, keys - {k}) + |groups[k].left| + |groups[k].right|
  }

  ghost function InConflict(groups: map<GroupKey, Group>, keys: set<GroupKey>): nat
    requires keys <= groups.Keys
  {
    if keys == {} then 0
    else
      var k := Pick(keys);
      InConflict(groups, keys - {k}) + Conflicted(groups[k])
  }

  /**
   Over any set of groups: finite left evidence is paired, unmatched or facing a conflict, and so on
   the right, and every observation held is finite, missing its ratio, a duplicate or in conflict.
   */
  lemma {:induction false} GroupsAccount(groups: map<GroupKey, Group>, keys: set<GroupKey>)
    requires keys <= groups.Keys
    ensures var t := Total(groups, keys);
            && t.leftFinite == t.paired + t.unmatchedLeft + |LeftFacingConflict(groups, keys)|
            && t.rightFinite == t.paired + t.unmatchedRight + |RightFacingConflict(groups, keys)|
            && Held(groups, keys) ==
                 t.leftFinite + t.rightFinite + t.missingLeft + t.missingRight + t.duplicates + InConflict(groups, keys)
  {
    hide Resolve, Contribution, Conflicted;
    if keys != {} {
      var k := Pick(keys);
      GroupsAccount(groups, keys - {k});
      GroupAccounts(groups[k]);
      FacingWithout(groups, keys, k);
    }
  }

  lemma FacingWithout(groups: map<GroupKey, Group>, keys: set<GroupKey>, k: GroupKey)
    requires keys <= groups.Keys && k in keys
    ensures |LeftFacingConflict(groups, keys)| == |LeftFacingConflict(groups, keys - {k})| +
                                                 One(Resolve(groups[k].left).finite.Some?
                                                     && Resolve(groups[k].right).conflict)
    ensures |RightFacingConflict(groups, keys)| == |RightFacingConflict(groups, keys - {k})| +
                                                  One(Resolve(groups[k].right).finite.Some?
                                                      && Resolve(groups[k].left).conflict)
  {
    hide Resolve;
    assert LeftFacingConflict(groups, keys - {k}) == LeftFacingConflict(groups, keys) - {k};
    assert RightFacingConflict(groups, keys - {k}) == RightFacingConflict(groups, keys) - {k};
  }

  // ----- splitting a sum over disjoint sets -----

  lemma AddLaws(a: Tally, b: Tally, c: Tally)
    ensures Add(Add(a, b), c) == Add(Add(a, c), b) && Add(a, NO_TALLY) == a && Add(NO_TALLY, a) == a
    ensures Add(a, Add(b, c)) == Add(Add(a, b), c)
  {
  }

  /** Whichever group is added last, the total is the same. */
  lemma {:induction false} TotalLast(groups: map<GroupKey, Group>, keys: set<GroupKey>, k: GroupKey)
    requires keys <= groups.Keys && k in keys
    ensures Total(groups, keys) == Add(Total(groups, keys - {k}), Contribution(groups[k]))
  {
    var j := Pick(keys);
    if j != k {
      hide Add, Contribution;
      TotalLast(groups, keys - {j}, k);
      TotalLast(groups, keys - {k}, j);
      assert (keys - {j}) - {k} == (keys - {k}) - {j};
      AddLaws(Total(groups, keys - {j} - {k}), Contribution(groups[k]), Contribution(groups[j]));
    }
  }

  lemma {:induction false} TotalSplits(groups: map<GroupKey, Group>, a: set<GroupKey>, b: set<GroupKey>)
    requires a + b <= groups.Keys && a !! b
    ensures Total(groups, a + b) == Add(Total(groups, a), Total(groups, b))
  {
    hide Add, Contribution;
    if b == {} {
      assert a + b == a;
      AddLaws(Total(groups, a), NO_TALLY, NO_TALLY);
    } else {
      var k := Pick(b);
      TotalSplits(groups, a, b - {k});
      TotalLast(groups, a + b, k);
      assert (a + b) - {k} == a + (b - {k});
      AddLaws(Total(groups, a), Total(groups, b - {k}), Contribution(groups[k]));
    }
  }

  /** The sum of the tallies filed under the given keys. */
  ghost function SumOf<K(!new)>(tallies: map<K, Tally>, keys: set<K>): Tally
    requires keys <= tallies.Keys
  {
    if keys == {} then NO_TALLY
    else
      var k := Pick(keys);
      Add(SumOf(tallies, keys - {k}), tallies[k])
  }

  /** The groups on one of the given paths. */
  function OnPaths(keys: set<GroupKey>, paths: set<PathKey>): (some: set<GroupKey>)
    ensures some <= keys
  {
    set k | k in keys && k.on in paths
  }

  lemma {:induction false} OverlapsSum(groups: map<GroupKey, Group>, paths: set<PathKey>)
    requires paths <= PathsOf(groups.Keys)
    ensures SumOf(Overlaps(groups), paths) == Total(groups, OnPaths(groups.Keys, paths))
  {
    assert OnPaths(groups.Keys, {}) == {} && Total(groups, OnPaths(groups.Keys, {})) == NO_TALLY;
    hide Add, Contribution, Total, Overlaps;
    OverlapAt(groups, paths);
    if paths == {} {
    } else {
      var p := Pick(paths);
      OverlapsSum(groups, paths - {p});
      var rest := OnPaths(groups.Keys, paths - {p});
      assert OnPaths(groups.Keys, paths) == rest + OnPath(groups.Keys, p);
      TotalSplits(groups, rest, OnPath(groups.Keys, p));
    }
  }

  lemma {:induction false} OverlapAt(groups: map<GroupKey, Group>, paths: set<PathKey>)
    requires paths <= PathsOf(groups.Keys)
    ensures Overlaps(groups).Keys == PathsOf(groups.Keys)
    ensures forall p :: p in paths ==> Overlaps(groups)[p] == Total(groups, OnPath(groups.Keys, p))
  {
    hide Total, PathsOf;
  }

  function PathsUnder(keys: set<GroupKey>, s: Stratum): (paths: set<PathKey>)
    ensures paths <= PathsOf(keys)
  {
    set k | k in keys && k.on.stratum == s :: k.on
  }

  /** The overall counters are the sums of the overlap rows, and each stratum's the sums over its paths. */
  lemma {:induction false} OverlapRowsAddUp(groups: map<GroupKey, Group>, s: Stratum)
    ensures Overlaps(groups).Keys == PathsOf(groups.Keys)
    ensures Total(groups, groups.Keys) == SumOf(Overlaps(groups), PathsOf(groups.Keys))
    ensures Total(groups, OnStratum(groups.Keys, s)) == SumOf(Overlaps(groups), PathsUnder(groups.Keys, s))
  {
    hide Total, Overlaps, SumOf;
    OverlapAt(groups, {});
    assert OnPaths(groups.Keys, PathsOf(groups.Keys)) == groups.Keys;
    OverlapsSum(groups, PathsOf(groups.Keys));
    assert OnPaths(groups.Keys, PathsUnder(groups.Keys, s)) == OnStratum(groups.Keys, s);
    OverlapsSum(groups, PathsUnder(groups.Keys, s));
  }

  // ----- paired rows -----

  ghost predicate OrderedWhereUsed(blocks: seq<Block>, groups: map<GroupKey, Group>) {
    forall k :: k in groups ==> OrderAt(blocks, k.block).Some?
  }

  /** An observation is only ever grouped into a block that has an order. */
  lemma GroupsHaveAnOrder(callsign: string, slots: seq<AlignedSlot>, left: string, right: string, cs: seq<Classified>)
    ensures var ctx := ContextOf(callsign, slots, left, right);
            OrderedWhereUsed(ctx.blocks, Groups(ctx, cs))
  {
    var ctx := ContextOf(callsign, slots, left, right);
    var sorted := InSequence(slots);
    hide BlocksFrom, Placed, InSequence, PathKeyOf, Seat;
    EligibleBlocksAreOrdered(sorted, 0, HasAmbiguousOrder(sorted), left, right);
    forall k | k in Groups(ctx, cs)
      ensures OrderAt(ctx.blocks, k.block).Some?
    {
      var c :| c in cs && Placement(ctx, c).Some? && Placement(ctx, c).value.0 == k;
      assert ctx.blocks[k.block] in ctx.blocks;
    }
  }

  /** A group gives a row exactly when both sides resolve to a finite observation. */
  lemma RowIffBothFinite(blocks: seq<Block>, groups: map<GroupKey, Group>, k: GroupKey)
    requires OrderedWhereUsed(blocks, groups) && k in groups
    ensures k in RowsOf(blocks, groups) <==> Contribution(groups[k]).paired == 1
    ensures Contribution(groups[k]).paired <= 1
  {
    hide Resolve, OrderAt;
  }

  lemma {:induction false} PairedCountsRows(blocks: seq<Block>, groups: map<GroupKey, Group>, keys: set<GroupKey>)
    requires OrderedWhereUsed(blocks, groups) && keys <= groups.Keys
    ensures Total(groups, keys).paired == |keys * RowsOf(blocks, groups).Keys|
  {
    hide Contribution, RowsOf, OrderedWhereUsed;
    var rows := RowsOf(blocks, groups).Keys;
    if keys == {} {
      assert keys * rows == {};
    } else {
      var k := Pick(keys);
      PairedCountsRows(blocks, groups, keys - {k});
      RowIffBothFinite(blocks, groups, k);
      if k in rows {
        assert keys * rows == ((keys - {k}) * rows) + {k};
      } else {
        assert keys * rows == (keys - {k}) * rows;
      }
    }
  }

  lemma RowsComeFromGroups(blocks: seq<Block>, groups: map<GroupKey, Group>)
    ensures RowsOf(blocks, groups).Keys <= groups.Keys
  {
  }

  /** Overall, on each path and in each stratum, the pair count is the number of paired rows. */
  lemma {:induction false} PairCountsAreRowCounts(blocks: seq<Block>, groups: map<GroupKey, Group>, p: PathKey,
                                                  s: Stratum)
    requires OrderedWhereUsed(blocks, groups)
    ensures var rows := RowsOf(blocks, groups);
            && Total(groups, groups.Keys).paired == |rows|
            && Total(groups, OnPath(groups.Keys, p)).paired == |OnPath(rows.Keys, p)|
            && Total(groups, OnStratum(groups.Keys, s)).paired == |OnStratum(rows.Keys, s)|
  {
    var rows := RowsOf(blocks, groups);
    hide RowsOf, Total, OrderedWhereUsed;
    RowsComeFromGroups(blocks, groups);
    PairedCountsRows(blocks, groups, groups.Keys);
    PairedCountsRows(blocks, groups, OnPath(groups.Keys, p));
    PairedCountsRows(blocks, groups, OnStratum(groups.Keys, s));
    assert groups.Keys * rows.Keys == rows.Keys;
    assert |rows.Keys| == |rows|;
    assert OnPath(groups.Keys, p) * rows.Keys == OnPath(rows.Keys, p);
    assert OnStratum(groups.Keys, s) * rows.Keys == OnStratum(rows.Keys, s);
  }

  /** A path summary's row count is its overlap row's pair count; a path without a summary has none. */
  lemma PathCountsAgree(blocks: seq<Block>, groups: map<GroupKey, Group>, p: PathKey)
    requires OrderedWhereUsed(blocks, groups)
    ensures var rows := RowsOf(blocks, groups);
            && (p in Paths(rows) ==> p in Overlaps(groups) && Paths(rows)[p].rowCount == Overlaps(groups)[p].paired)
            && (p in Overlaps(groups) && p !in Paths(rows) ==> Overlaps(groups)[p].paired == 0)
  {
    var rows := RowsOf(blocks, groups);
    PairCountsAreRowCounts(blocks, groups, p, p.stratum);
    RowsComeFromGroups(blocks, groups);
    hide RowsOf, Total, OrderedWhereUsed, Sort, Listing, Median, Deltas;
    if p !in Paths(rows) {
      assert OnPath(rows.Keys, p) == {};
    }
  }

  /** A stratum's row count is its pair count, and its path count the number of its paired paths. */
  lemma StratumCountsAgree(blocks: seq<Block>, groups: map<GroupKey, Group>, s: Stratum, excluded: nat)
    requires OrderedWhereUsed(blocks, groups)
    ensures var rows := RowsOf(blocks, groups);
            var stratum := SummarizeStratum(groups, rows, Paths(rows), excluded, s);
            stratum.rowCount == stratum.tally.paired && stratum.pathCount == |PathsUnder(rows.Keys, s)|
  {
    var rows := RowsOf(blocks, groups);
    PairCountsAreRowCounts(blocks, groups, PathKey(s, ""), s);
    StratumPaths(rows, s);
    hide RowsOf, Total, OrderedWhereUsed, Sort, Listing, Median, BlocksIn, Ordered, Deltas, Medians, OnStratum, PathsIn,
         PathsUnder, Paths;
  }

  lemma StratumPaths(rows: map<GroupKey, PairedRow>, s: Stratum)
    ensures PathsIn(Paths(rows), s) == PathsUnder(rows.Keys, s)
  {
    hide SummarizePath;
  }

  /** A stratum's minimum and maximum are deltas of its rows and bound all of them. */
  lemma StratumExtremes(groups: map<GroupKey, Group>, rows: map<GroupKey, PairedRow>, paths: map<PathKey, PathSummary>,
                        excluded: nat, s: Stratum)
    ensures var stratum, keys := SummarizeStratum(groups, rows, paths, excluded, s), OnStratum(rows.Keys, s);
            && (stratum.minimumDelta.Some? <==> keys != {}) && (stratum.maximumDelta.Some? <==> keys != {})
            && (keys != {} ==>
                  && (forall k :: k in keys ==>
                        stratum.minimumDelta.value <= rows[k].delta <= stratum.maximumDelta.value)
                  && (exists k :: k in keys && rows[k].delta == stratum.minimumDelta.value)
                  && (exists k :: k in keys && rows[k].delta == stratum.maximumDelta.value))
  {
    var keys := OnStratum(rows.Keys, s);
    hide Sort, Listing, Median, BlocksIn, Ordered, Total, Medians, PathsIn, OnStratum;
    assert |Sort(Listing(Deltas(rows), keys))| == |keys|;
    if keys != {} {
      ExtremesBound(Deltas(rows), keys);
    }
  }

  /** The block counters agree: every block is eligible or invalid, and the eligible ones have one order each. */
  lemma {:induction false} BlockCountersAgree(blocks: seq<Block>)
    requires forall b :: b in blocks ==> (b.eligibility == Eligible <==> b.order.Some?)
    ensures var c := CountBlocks(blocks);
            && c.blocks == |blocks| == c.eligible + c.invalid && c.eligible == c.leftThenRight + c.rightThenLeft
            && (c.eligible == 0 <==> forall b :: b in blocks ==> b.eligibility != Eligible)
  {
    if blocks != [] {
      var n := |blocks| - 1;
      var last := blocks[n];
      forall b
        ensures b in blocks <==> b in blocks[..n] || b == last
      {
      }
      assert last in blocks;
      BlockCountersAgree(blocks[..n]);
      OneOrder(last.order);
    }
  }

  lemma OneOrder(order: Option<Order>)
    ensures One(order == Some(LeftThenRight)) + One(order == Some(RightThenLeft)) == One(order.Some?)
  {
    assert order.Some? ==> order.value == LeftThenRight || order.value == RightThenLeft;
  }

  // ----- the summaries add up -----

  /** The sum of the counts filed under the given keys. */
  ghost function SumCounts<K(!new)>(counts: map<K, nat>, keys: set<K>): nat
    requires keys <= counts.Keys
  {
    if keys == {} then 0
    else
      var k := Pick(keys);
      SumCounts(counts, keys - {k}) + counts[k]
  }

  function PathRowCounts(paths: map<PathKey, PathSummary>): (counts: map<PathKey, nat>)
    ensures counts.Keys == paths.Keys
  {
    map p | p in paths :: paths[p].rowCount
  }

  function StratumRowCounts(strata: map<Stratum, StratumSummary>): (counts: map<Stratum, nat>)
    ensures counts.Keys == strata.Keys
  {
    map s | s in strata :: strata[s].rowCount
  }

  function StratumTallies(strata: map<Stratum, StratumSummary>): (tallies: map<Stratum, Tally>)
    ensures tallies.Keys == strata.Keys
  {
    map s | s in strata :: strata[s].tally
  }

  function OnStrata(keys: set<GroupKey>, strata: set<Stratum>): (some: set<GroupKey>)
    ensures some <= keys
  {
    set k | k in keys && k.on.stratum in strata
  }

  lemma OnStrataSplits(keys: set<GroupKey>, strata: set<Stratum>, s: Stratum)
    requires s in strata
    ensures OnStrata(keys, strata) == OnStrata(keys, strata - {s}) + OnStratum(keys, s)
    ensures OnStrata(keys, strata - {s}) !! OnStratum(keys, s)
  {
  }

  lemma {:induction false} PathRowsSum(rows: map<GroupKey, PairedRow>, paths: set<PathKey>)
    requires paths <= Paths(rows).Keys
    ensures SumCounts(PathRowCounts(Paths(rows)), paths) == |OnPaths(rows.Keys, paths)|
  {
    hide Sort, Listing, Median, Deltas;
    if paths == {} {
      assert OnPaths(rows.Keys, paths) == {};
    } else {
      var p := Pick(paths);
      PathRowsSum(rows, paths - {p});
      assert OnPaths(rows.Keys, paths) == OnPaths(rows.Keys, paths - {p}) + OnPath(rows.Keys, p);
      assert OnPaths(rows.Keys, paths - {p}) !! OnPath(rows.Keys, p);
      assert Paths(rows)[p].rowCount == |OnPath(rows.Keys, p)|;
      hide Paths, OnPaths, OnPath;
    }
  }

  /** What every stratum of a list of summaries says about the groups. */
  ghost predicate SummarizesStrata(strata: map<Stratum, StratumSummary>, groups: map<GroupKey, Group>,
                                   rows: map<GroupKey, PairedRow>) {
    forall s :: s in strata ==>
      strata[s].rowCount == |OnStratum(rows.Keys, s)| && strata[s].tally == Total(groups, OnStratum(groups.Keys, s))
  }

  lemma {:induction false} StratumSums(strata: map<Stratum, StratumSummary>, groups: map<GroupKey, Group>,
                                       rows: map<GroupKey, PairedRow>, some: set<Stratum>)
    requires some <= strata.Keys && SummarizesStrata(strata, groups, rows)
    ensures SumCounts(StratumRowCounts(strata), some) == |OnStrata(rows.Keys, some)|
    ensures SumOf(StratumTallies(strata), some) == Total(groups, OnStrata(groups.Keys, some))
  {
    hide Add, Contribution, OnStratum, OnStrata, Total;
    if some == {} {
      NothingInNoStratum(groups, rows);
    } else {
      var s := Pick(some);
      StratumSums(strata, groups, rows, some - {s});
      OnStrataSplits(rows.Keys, some, s);
      OnStrataSplits(groups.Keys, some, s);
      TotalSplits(groups, OnStrata(groups.Keys, some - {s}), OnStratum(groups.Keys, s));
    }
  }

  lemma {:induction false} NothingInNoStratum(groups: map<GroupKey, Group>, rows: map<GroupKey, PairedRow>)
    ensures OnStrata(rows.Keys, {}) == {} && Total(groups, OnStrata(groups.Keys, {})) == NO_TALLY
  {
    assert OnStrata(groups.Keys, {}) == {};
  }

  lemma StrataSummarize(ctx: Context, cs: seq<Classified>, groups: map<GroupKey, Group>, rows: map<GroupKey, PairedRow>)
    ensures SummarizesStrata(Strata(ctx, cs, groups, rows), groups, rows)
    ensures StrataOf(groups.Keys) <= Strata(ctx, cs, groups, rows).Keys
  {
    hide Sort, Listing, Median, BlocksIn, Ordered, Deltas, Medians, Total, CountIf, Paths, PathsIn;
  }

  /**
   The whole analysis adds up: the paired rows are as many as the pairs in the totals, in all overlap rows, in all path
   summaries and in all strata, and the totals are the sums of the overlap rows and the sums of the strata.
   */
  lemma AnalysisAddsUp(callsign: string, slots: seq<AlignedSlot>, left: string, right: string, cs: seq<Classified>)
    ensures var a := Analyze(ContextOf(callsign, slots, left, right), cs);
            && a.total.paired == |a.rows|
            && a.total == SumOf(a.overlaps, a.overlaps.Keys)
            && a.total == SumOf(StratumTallies(a.strata), a.strata.Keys)
            && SumCounts(PathRowCounts(a.paths), a.paths.Keys) == |a.rows|
            && SumCounts(StratumRowCounts(a.strata), a.strata.Keys) == |a.rows|
            && a.blockCounts.eligible + a.blockCounts.invalid == a.blockCounts.blocks == |a.blocks|
            && a.blockCounts.leftThenRight + a.blockCounts.rightThenLeft == a.blockCounts.eligible
            && (a.availability == NoEligibleBlocks <==> a.blockCounts.eligible == 0)
  {
    BlocksAgree(callsign, slots, left, right);
    hide CountBlocks;
    var ctx := ContextOf(callsign, slots, left, right);
    GroupsHaveAnOrder(callsign, slots, left, right, cs);
    hide ContextOf;
    var groups := Groups(ctx, cs);
    var rows := RowsOf(ctx.blocks, groups);
    var strata := Strata(ctx, cs, groups, rows);
    var some := Stratum(Transmit, M2, "", LocalDecode, Operator);
    PairCountsAreRowCounts(ctx.blocks, groups, PathKey(some, ""), some);
    OverlapRowsAddUp(groups, some);
    StrataSummarize(ctx, cs, groups, rows);
    StratumSums(strata, groups, rows, strata.Keys);
    RowsComeFromGroups(ctx.blocks, groups);
    PathRowsSum(rows, Paths(rows).Keys);
    assert OnPaths(rows.Keys, Paths(rows).Keys) == rows.Keys by { EveryPath(rows); }
    EveryStratum(groups.Keys, strata.Keys, rows.Keys);
    assert |rows.Keys| == |rows|;
    hide Groups, RowsOf, Total, Overlaps, Paths, Strata, SumOf, SumCounts, OnPaths, OnStrata, OnStratum, OnPath,
         PathsOf;
  }

  lemma BlocksAgree(callsign: string, slots: seq<AlignedSlot>, left: string, right: string)
    ensures var blocks := ContextOf(callsign, slots, left, right).blocks;
            var c := CountBlocks(blocks);
            && c.blocks == |blocks| == c.eligible + c.invalid && c.eligible == c.leftThenRight + c.rightThenLeft
            && (c.eligible == 0 <==> forall b :: b in blocks ==> b.eligibility != Eligible)
  {
    var sorted := InSequence(slots);
    hide BlocksFrom, InSequence, CountBlocks;
    EligibleBlocksAreOrdered(sorted, 0, HasAmbiguousOrder(sorted), left, right);
    BlockCountersAgree(BlocksOf(sorted, left, right));
  }

  lemma EveryPath(rows: map<GroupKey, PairedRow>)
    ensures OnPaths(rows.Keys, Paths(rows).Keys) == rows.Keys
  {
    hide SummarizePath;
    assert Paths(rows).Keys == PathsOf(rows.Keys);
  }

  lemma EveryStratum(keys: set<GroupKey>, strata: set<Stratum>, some: set<GroupKey>)
    requires StrataOf(keys) <= strata && some <= keys
    ensures OnStrata(keys, strata) == keys && OnStrata(some, strata) == some
  {
  }

  // ----- every placed observation is held once -----

  ghost function Across(ctx: Context, cs: seq<Classified>, keys: set<GroupKey>): nat {
    if keys == {} then 0
    else
      var k := Pick(keys);
      Across(ctx, cs, keys - {k}) + |Placed(ctx, cs, k, Left)| + |Placed(ctx, cs, k, Right)|
  }

  lemma {:induction false} AcrossGrows(ctx: Context, cs: seq<Classified>, c: Classified, keys: set<GroupKey>)
    ensures Across(ctx, cs + [c], keys) ==
              Across(ctx, cs, keys) + One(Placement(ctx, c).Some? && Placement(ctx, c).value.0 in keys)
  {
    if keys != {} {
      var k := Pick(keys);
      AcrossGrows(ctx, cs, c, keys - {k});
      assert (cs + [c])[..|cs|] == cs;
      hide Placement, Across;
      PlacedGrows(ctx, cs, c, k);
    }
  }

  lemma {:induction false} PlacedGrows(ctx: Context, cs: seq<Classified>, c: Classified, k: GroupKey)
    ensures |Placed(ctx, cs + [c], k, Left)| + |Placed(ctx, cs + [c], k, Right)| ==
              |Placed(ctx, cs, k, Left)| + |Placed(ctx, cs, k, Right)| +
              One(Placement(ctx, c).Some? && Placement(ctx, c).value.0 == k)
  {
    assert (cs + [c])[..|cs|] == cs;
    hide Placement;
    var p := Placement(ctx, c);
    assert p.Some? && p.value.0 == k ==> p == Some((k, Left)) || p == Some((k, Right));
  }

  predicate IsPlaced(ctx: Context, c: Classified) {
    Placement(ctx, c).Some?
  }

  lemma {:induction false} AcrossCountsPlaced(ctx: Context, cs: seq<Classified>, keys: set<GroupKey>)
    requires KeysOf(ctx, cs) <= keys
    ensures Across(ctx, cs, keys) == CountIf(cs, c => IsPlaced(ctx, c))
  {
    if cs == [] {
      AcrossNothing(ctx, keys);
    } else {
      var n := |cs| - 1;
      hide Placement, Across, Placed;
      forall k | k in KeysOf(ctx, cs[..n])
        ensures k in keys
      {
        var c :| c in cs[..n] && Placement(ctx, c).Some? && Placement(ctx, c).value.0 == k;
        assert c in cs;
      }
      AcrossCountsPlaced(ctx, cs[..n], keys);
      AcrossGrows(ctx, cs[..n], cs[n], keys);
      SplitLast(cs);
      assert cs[n] in cs;
      assert Placement(ctx, cs[n]).Some? ==> Placement(ctx, cs[n]).value.0 in KeysOf(ctx, cs);
    }
  }

  lemma {:induction false} AcrossNothing(ctx: Context, keys: set<GroupKey>)
    ensures Across(ctx, [], keys) == 0
  {
    if keys != {} {
      AcrossNothing(ctx, keys - {Pick(keys)});
    }
  }

  lemma {:induction false} HeldIsAcross(ctx: Context, cs: seq<Classified>, keys: set<GroupKey>)
    requires keys <= KeysOf(ctx, cs)
    ensures keys <= Groups(ctx, cs).Keys && Held(Groups(ctx, cs), keys) == Across(ctx, cs, keys)
  {
    hide KeysOf, Placed;
    if keys != {} {
      HeldIsAcross(ctx, cs, keys - {Pick(keys)});
    }
  }

  /**
   Every usable observation with a seat, a path and a mode is accounted for exactly once: as a finite
   representative, a representative without a ratio, a duplicate, or part of a conflict.
   */
  lemma {:induction false} NoObservationIsLost(ctx: Context, cs: seq<Classified>)
    ensures var groups := Groups(ctx, cs);
            var t := Total(groups, groups.Keys);
            CountIf(cs, c => IsPlaced(ctx, c)) ==
              t.leftFinite + t.rightFinite + t.missingLeft + t.missingRight + t.duplicates
              + InConflict(groups, groups.Keys)
  {
    var groups := Groups(ctx, cs);
    hide KeysOf, Placed, Held, Across, Total, InConflict, CountIf;
    assert groups.Keys == KeysOf(ctx, cs);
    GroupsAccount(groups, groups.Keys);
    HeldIsAcross(ctx, cs, groups.Keys);
    AcrossCountsPlaced(ctx, cs, groups.Keys);
  }
}
