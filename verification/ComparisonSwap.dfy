/** The comparison favours neither antenna: exchanging left and right mirrors the whole result. */
module ComparisonSwap {
  import opened Prelude
  import opened Records
  import opened Alignment
  import opened Attribution
  import opened ComparisonBlocks
  import opened Bags
  import opened Comparison

  function SwapBlocks(blocks: seq<Block>): (swapped: seq<Block>)
    ensures |swapped| == |blocks|
    ensures forall i :: 0 <= i < |blocks| ==> swapped[i] == SwapBlock(blocks[i])
  {
    seq(|blocks|, i requires 0 <= i < |blocks| => SwapBlock(blocks[i]))
  }

  function SwapContext(ctx: Context): Context {
    Context(ctx.callsign, SwapBlocks(ctx.blocks), ctx.right, ctx.left)
  }

  function SwapSide(side: Side): Side {
    if side == Left then Right else Left
  }

  function SwapGroup(g: Group): Group {
    Group(g.right, g.left)
  }

  function SwapRow(r: PairedRow): PairedRow {
    PairedRow(SwapOrder(Some(r.order)).value, r.right, r.left, r.elapsedSeconds, 0.0 - r.delta)
  }

  function SwapTally(t: Tally): Tally {
    Tally(t.rightFinite, t.leftFinite, t.paired, t.unmatchedRight, t.unmatchedLeft,
          t.missingRight, t.missingLeft, t.duplicates, t.conflicts)
  }

  function Negate(x: Option<real>): Option<real> {
    if x.None? then None else Some(0.0 - x.value)
  }

  function SwapPath(p: PathSummary): PathSummary {
    PathSummary(p.rowCount, 0.0 - p.medianDelta)
  }

  function SwapStratum(s: StratumSummary): StratumSummary {
    StratumSummary(s.rowCount, s.pathCount, s.blockCount, s.rightThenLeft, s.leftThenRight, SwapTally(s.tally),
                   s.excluded,
                   Negate(s.maximumDelta), Negate(s.medianPathDelta), Negate(s.minimumDelta))
  }

  function SwapGroups(groups: map<GroupKey, Group>): (swapped: map<GroupKey, Group>)
    ensures swapped.Keys == groups.Keys
  {
    map k | k in groups :: SwapGroup(groups[k])
  }

  function SwapRows(rows: map<GroupKey, PairedRow>): (swapped: map<GroupKey, PairedRow>)
    ensures swapped.Keys == rows.Keys
  {
    map k | k in rows :: SwapRow(rows[k])
  }

  function SwapPaths(paths: map<PathKey, PathSummary>): map<PathKey, PathSummary> {
    map p | p in paths :: SwapPath(paths[p])
  }

  function SwapCounts(c: BlockCounts): BlockCounts {
    c.(leftThenRight := c.rightThenLeft, rightThenLeft := c.leftThenRight)
  }

  function SwapAnalysis(a: Analysis): Analysis {
    Analysis(a.availability, SwapBlocks(a.blocks), SwapRows(a.rows),
             map p | p in a.overlaps :: SwapTally(a.overlaps[p]),
             SwapPaths(a.paths), map s | s in a.strata :: SwapStratum(a.strata[s]),
             SwapTally(a.total), a.counts, SwapCounts(a.blockCounts), a.uniquePaths)
  }

  // ----- placement -----

  lemma {:induction false} BlockOfSwaps(blocks: seq<Block>, slotId: string)
    ensures BlockOf(SwapBlocks(blocks), slotId) == BlockOf(blocks, slotId)
  {
    if blocks != [] {
      var n := |blocks| - 1;
      assert SwapBlocks(blocks)[..n] == SwapBlocks(blocks[..n]);
      BlockOfSwaps(blocks[..n], slotId);
    }
  }

  lemma SeatSwaps(ctx: Context, c: Classified)
    requires ctx.left != ctx.right
    ensures Seat(SwapContext(ctx), c) ==
              match Seat(ctx, c) case None => None case Some((i, side)) => Some((i, SwapSide(side)))
  {
    if c.assignment.slotId.Some? {
      BlockOfSwaps(ctx.blocks, c.assignment.slotId.value);
    }
  }

  lemma PlacementSwaps(ctx: Context, c: Classified, k: GroupKey, side: Side)
    requires ctx.left != ctx.right
    ensures Placement(SwapContext(ctx), c) == Some((k, side)) <==> Placement(ctx, c) == Some((k, SwapSide(side)))
    ensures Placement(SwapContext(ctx), c).Some? <==> Placement(ctx, c).Some?
    ensures Placement(ctx, c).Some? ==> Placement(SwapContext(ctx), c).value.0 == Placement(ctx, c).value.0
  {
    SeatSwaps(ctx, c);
    hide Seat, PathKeyOf;
  }

  lemma {:induction false} PlacedSwaps(ctx: Context, cs: seq<Classified>, k: GroupKey, side: Side)
    requires ctx.left != ctx.right
    ensures Placed(SwapContext(ctx), cs, k, side) == Placed(ctx, cs, k, SwapSide(side))
  {
    if cs != [] {
      hide Placement, SwapContext, SwapSide;
      PlacedSwaps(ctx, cs[..|cs| - 1], k, side);
      PlacementSwaps(ctx, cs[|cs| - 1], k, side);
    }
  }

  lemma GroupsSwap(ctx: Context, cs: seq<Classified>)
    requires ctx.left != ctx.right
    ensures Groups(SwapContext(ctx), cs) == SwapGroups(Groups(ctx, cs))
  {
    hide Placement, SwapContext, Placed;
    forall c | c in cs
      ensures Placement(SwapContext(ctx), c).Some? <==> Placement(ctx, c).Some?
      ensures Placement(ctx, c).Some? ==> Placement(SwapContext(ctx), c).value.0 == Placement(ctx, c).value.0
    {
      if Placement(ctx, c).Some? {
        PlacementSwaps(ctx, c, Placement(ctx, c).value.0, Left);
      } else if Placement(SwapContext(ctx), c).Some? {
        PlacementSwaps(ctx, c, Placement(SwapContext(ctx), c).value.0, Left);
      }
    }
    assert KeysOf(SwapContext(ctx), cs) == KeysOf(ctx, cs);
    forall k | k in KeysOf(ctx, cs)
      ensures Placed(SwapContext(ctx), cs, k, Left) == Placed(ctx, cs, k, Right)
      ensures Placed(SwapContext(ctx), cs, k, Right) == Placed(ctx, cs, k, Left)
    {
      PlacedSwaps(ctx, cs, k, Left);
      PlacedSwaps(ctx, cs, k, Right);
    }
  }

  // ----- rows and counters -----

  lemma SecondsNegate(d: int)
    ensures NumSeconds(-d) == -NumSeconds(d)
  {
  }

  lemma RowSwaps(order: Option<Order>, g: Group)
    ensures RowOf(SwapOrder(order), SwapGroup(g)).Some? <==> RowOf(order, g).Some?
    ensures RowOf(order, g).Some? ==> RowOf(SwapOrder(order), SwapGroup(g)).value == SwapRow(RowOf(order, g).value)
  {
    var left, right := Resolve(g.left).finite, Resolve(g.right).finite;
    if left.Some? && right.Some? {
      hide Resolve, NumSeconds;
      SecondsNegate(right.value.timestamp - left.value.timestamp);
    }
  }

  lemma RowsSwap(blocks: seq<Block>, groups: map<GroupKey, Group>)
    ensures RowsOf(SwapBlocks(blocks), SwapGroups(groups)) == SwapRows(RowsOf(blocks, groups))
  {
    hide RowOf, SwapGroup, SwapRow, SwapOrder;
    forall k | k in groups
      ensures RowOf(OrderAt(SwapBlocks(blocks), k.block), SwapGroup(groups[k])).Some? <==>
              RowOf(OrderAt(blocks, k.block), groups[k]).Some?
      ensures RowOf(OrderAt(blocks, k.block), groups[k]).Some? ==>
                RowOf(OrderAt(SwapBlocks(blocks), k.block), SwapGroup(groups[k])).value ==
                SwapRow(RowOf(OrderAt(blocks, k.block), groups[k]).value)
    {
      OrderSwaps(blocks, k.block);
      RowSwaps(OrderAt(blocks, k.block), groups[k]);
    }
  }

  lemma OrderSwaps(blocks: seq<Block>, i: nat)
    ensures OrderAt(SwapBlocks(blocks), i) == SwapOrder(OrderAt(blocks, i))
  {
  }

  lemma ContributionSwaps(g: Group)
    ensures Contribution(SwapGroup(g)) == SwapTally(Contribution(g))
  {
    hide Resolve;
  }

  lemma AddSwaps(a: Tally, b: Tally)
    ensures SwapTally(Add(a, b)) == Add(SwapTally(a), SwapTally(b))
  {
  }

  lemma {:induction false} TotalSwaps(groups: map<GroupKey, Group>, keys: set<GroupKey>)
    requires keys <= groups.Keys
    ensures Total(SwapGroups(groups), keys) == SwapTally(Total(groups, keys))
  {
    assert SwapTally(NO_TALLY) == NO_TALLY;
    hide Contribution, Add, SwapTally, SwapGroup;
    if keys == {} {
    } else {
      var k := Pick(keys);
      TotalSwaps(groups, keys - {k});
      ContributionSwaps(groups[k]);
      AddSwaps(Total(groups, keys - {k}), Contribution(groups[k]));
    }
  }

  // ----- order statistics -----

  lemma {:induction false} DeltasSwap(rows: map<GroupKey, PairedRow>, keys: set<GroupKey>)
    requires keys <= rows.Keys
    ensures Sort(Listing(Deltas(SwapRows(rows)), keys)) == Mirror(Sort(Listing(Deltas(rows), keys)))
  {
    hide Sort, Listing, Mirror;
    ListingNegated(Deltas(rows), Deltas(SwapRows(rows)), keys);
    SortMirrors(Listing(Deltas(rows), keys), Listing(Deltas(SwapRows(rows)), keys));
  }

  lemma PathSwaps(rows: map<GroupKey, PairedRow>, p: PathKey)
    requires p in PathsOf(rows.Keys)
    ensures PathsOf(SwapRows(rows).Keys) == PathsOf(rows.Keys)
    ensures SummarizePath(SwapRows(rows), p) == SwapPath(SummarizePath(rows, p))
  {
    var keys := OnPath(rows.Keys, p);
    var k :| k in rows.Keys && k.on == p;
    assert k in keys;
    hide Sort, Listing, Mirror, Median;
    DeltasSwap(rows, keys);
    MedianMirrors(Sort(Listing(Deltas(rows), keys)));
  }

  lemma PathsSwap(rows: map<GroupKey, PairedRow>)
    ensures Paths(SwapRows(rows)) == SwapPaths(Paths(rows))
  {
    hide SummarizePath;
    forall p | p in PathsOf(rows.Keys)
      ensures SummarizePath(SwapRows(rows), p) == SwapPath(SummarizePath(rows, p))
    {
      PathSwaps(rows, p);
    }
  }

  lemma MediansSwap(paths: map<PathKey, PathSummary>, s: Stratum)
    ensures PathsIn(SwapPaths(paths), s) == PathsIn(paths, s)
    ensures Sort(Listing(Medians(SwapPaths(paths)), PathsIn(paths, s)))
              == Mirror(Sort(Listing(Medians(paths), PathsIn(paths, s))))
  {
    hide Sort, Listing, Mirror;
    ListingNegated(Medians(paths), Medians(SwapPaths(paths)), PathsIn(paths, s));
    SortMirrors(Listing(Medians(paths), PathsIn(paths, s)), Listing(Medians(SwapPaths(paths)), PathsIn(paths, s)));
  }

  lemma OrderedSwaps(rows: map<GroupKey, PairedRow>, keys: set<GroupKey>)
    requires keys <= rows.Keys
    ensures Ordered(SwapRows(rows), keys, LeftThenRight) == Ordered(rows, keys, RightThenLeft)
    ensures Ordered(SwapRows(rows), keys, RightThenLeft) == Ordered(rows, keys, LeftThenRight)
  {
  }

  /** The ends and the middle of a mirrored list. */
  lemma MirrorExtremes(s: seq<real>)
    requires s != []
    ensures Mirror(s) != [] && Mirror(s)[0] == 0.0 - s[|s| - 1] && Mirror(s)[|s| - 1] == 0.0 - s[0]
  {
  }

  lemma StratumSwaps(groups: map<GroupKey, Group>, rows: map<GroupKey, PairedRow>, paths: map<PathKey, PathSummary>,
                     excluded: nat, s: Stratum)
    ensures SummarizeStratum(SwapGroups(groups), SwapRows(rows), SwapPaths(paths), excluded, s)
            == SwapStratum(SummarizeStratum(groups, rows, paths, excluded, s))
  {
    hide Sort, Listing, Median, Mirror, BlocksIn, Ordered, Total, SwapGroups, SwapRows, SwapPaths, Medians, Deltas,
         SwapTally,
         OnStratum, PathsIn;
    var keys := OnStratum(rows.Keys, s);
    DeltasSwap(rows, keys);
    MediansSwap(paths, s);
    OrderedSwaps(rows, keys);
    TotalSwaps(groups, OnStratum(groups.Keys, s));
    var deltas := Sort(Listing(Deltas(rows), keys));
    var medians := Sort(Listing(Medians(paths), PathsIn(paths, s)));
    if deltas != [] {
      MirrorExtremes(deltas);
    }
    if medians != [] {
      MedianMirrors(medians);
    }
  }

  lemma {:induction false} CountSwaps(cs: seq<Classified>, p: Classified -> bool, q: Classified -> bool)
    requires forall c :: p(c) == q(c)
    ensures CountIf(cs, p) == CountIf(cs, q)
  {
    if cs != [] {
      CountSwaps(cs[..|cs| - 1], p, q);
    }
  }

  lemma CountsSwap(ctx: Context, cs: seq<Classified>)
    requires ctx.left != ctx.right
    ensures CountAll(SwapContext(ctx), cs) == CountAll(ctx, cs)
  {
    hide Seat, SwapContext, PathIdentity, ModeOf, ModeMissing, CountIf;
    forall c: Classified
      ensures Seat(SwapContext(ctx), c).Some? == Seat(ctx, c).Some?
    {
      SeatSwaps(ctx, c);
    }
    var o := SwapContext(ctx);
    assert o.callsign == ctx.callsign by { SwapKeepsCallsign(ctx); }
    CountSwaps(cs, (c: Classified) => Seat(o, c).Some? && PathIdentity(o.callsign, c.observation).None?,
               (c: Classified) => Seat(ctx, c).Some? && PathIdentity(ctx.callsign, c.observation).None?);
    CountSwaps(cs, (c: Classified) => Seat(o, c).Some? && ModeOf(c.observation).None? && ModeMissing(c.observation),
               (c: Classified) => Seat(ctx, c).Some? && ModeOf(c.observation).None? && ModeMissing(c.observation));
    CountSwaps(cs, (c: Classified) => Seat(o, c).Some? && ModeOf(c.observation).None? && !ModeMissing(c.observation),
               (c: Classified) => Seat(ctx, c).Some? && ModeOf(c.observation).None? && !ModeMissing(c.observation));
  }

  lemma SwapKeepsCallsign(ctx: Context)
    ensures SwapContext(ctx).callsign == ctx.callsign && SwapContext(ctx).blocks == SwapBlocks(ctx.blocks)
  {
  }

  lemma {:induction false} BlockCountsSwap(blocks: seq<Block>)
    ensures CountBlocks(SwapBlocks(blocks)) == SwapCounts(CountBlocks(blocks))
  {
    if blocks != [] {
      var n := |blocks| - 1;
      assert SwapBlocks(blocks)[..n] == SwapBlocks(blocks[..n]);
      BlockCountsSwap(blocks[..n]);
    }
  }

  lemma RemotePathsStay(rows: map<GroupKey, PairedRow>)
    ensures RemotePaths(SwapRows(rows)) == RemotePaths(rows)
  {
  }

  lemma AvailabilitySwaps(blocks: seq<Block>, rows: map<GroupKey, PairedRow>)
    ensures AvailabilityOf(SwapBlocks(blocks), SwapRows(rows)) == AvailabilityOf(blocks, rows)
  {
    assert rows == map[] <==> rows.Keys == {};
    assert SwapRows(rows) == map[] <==> SwapRows(rows).Keys == {};
    if b :| b in blocks && b.eligibility == Eligible {
      assert SwapBlock(b) in SwapBlocks(blocks);
    }
  }

  /**
   Exchanging which antenna is called left negates every delta and median, turns minimum into
   minus maximum, exchanges all left and right counts and block orders, and changes nothing else.
   */
  lemma SwappingAntennasMirrorsAnalysis(ctx: Context, cs: seq<Classified>)
    requires ctx.left != ctx.right
    ensures Analyze(SwapContext(ctx), cs) == SwapAnalysis(Analyze(ctx, cs))
  {
    hide CountBlocks, SwapCounts, RemotePaths, Groups, RowsOf, Total, Paths, SummarizeStratum, CountAll, SwapGroups,
         SwapRows, SwapPaths, AvailabilityOf,
         SwapTally, SwapStratum, SwapBlocks, SwapContext, CountIf;
    var groups := Groups(ctx, cs);
    var rows := RowsOf(ctx.blocks, groups);
    SwapKeepsCallsign(ctx);
    GroupsSwap(ctx, cs);
    RowsSwap(ctx.blocks, groups);
    PathsSwap(rows);
    CountsSwap(ctx, cs);
    AvailabilitySwaps(ctx.blocks, rows);
    BlockCountsSwap(ctx.blocks);
    RemotePathsStay(rows);
    TotalSwaps(groups, groups.Keys);
    forall p | p in PathsOf(groups.Keys)
      ensures Total(SwapGroups(groups), OnPath(groups.Keys, p)) == SwapTally(Total(groups, OnPath(groups.Keys, p)))
    {
      TotalSwaps(groups, OnPath(groups.Keys, p));
    }
    StrataSwap(ctx, cs, groups, rows);
    hide Strata;
  }

  lemma StrataSwap(ctx: Context, cs: seq<Classified>, groups: map<GroupKey, Group>, rows: map<GroupKey, PairedRow>)
    ensures Strata(SwapContext(ctx), cs, SwapGroups(groups), SwapRows(rows)) ==
            var strata := Strata(ctx, cs, groups, rows);
            map s | s in strata :: SwapStratum(strata[s])
  {
    hide SummarizeStratum, CountIf, SwapStratum, SwapGroups, SwapRows, Paths, SwapPaths, SwapContext;
    SwapKeepsCallsign(ctx);
    PathsSwap(rows);
    forall s
      ensures SummarizeStratum(SwapGroups(groups), SwapRows(rows), SwapPaths(Paths(rows)),
                               CountIf(cs, ExcludedFrom(ctx.callsign, s)), s)
              == SwapStratum(SummarizeStratum(groups, rows, Paths(rows), CountIf(cs, ExcludedFrom(ctx.callsign, s)), s))
    {
      StratumSwaps(groups, rows, Paths(rows), CountIf(cs, ExcludedFrom(ctx.callsign, s)), s);
    }
  }

  lemma SwappedLabelsMirrorBlocks(slots: seq<AlignedSlot>, left: string, right: string)
    requires left != right
    ensures BlocksOf(slots, right, left) == SwapBlocks(BlocksOf(slots, left, right))
  {
    hide BlocksFrom, SwapBlock;
    BlocksSwap(slots, 0, HasAmbiguousOrder(slots), left, right);
  }

  /** From the aligned slots on: naming the antennas the other way round mirrors the analysis. */
  lemma FavoursNeitherAntenna(callsign: string, slots: seq<AlignedSlot>, left: string, right: string,
                              cs: seq<Classified>)
    requires left != right
    ensures Analyze(ContextOf(callsign, slots, right, left), cs)
            == SwapAnalysis(Analyze(ContextOf(callsign, slots, left, right), cs))
  {
    hide BlocksOf, Analyze, SwapAnalysis, SwapBlocks;
    SwappedLabelsMirrorBlocks(InSequence(slots), left, right);
    SwappingAntennasMirrorsAnalysis(ContextOf(callsign, slots, left, right), cs);
  }
}
