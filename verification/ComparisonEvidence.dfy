/** What the comparison makes of observations, in terms of their own fields. */
module ComparisonEvidence {
  import opened Prelude
  import opened Records
  import opened Trimming
  import opened Alignment
  import opened Attribution
  import opened ComparisonBlocks
  import opened Comparison
  import opened ComparisonOrder
  import opened Bags
  import ComparisonConservation

  // ----- sides -----

  /** Two observations disagree in what they report, whatever their ids, calls and annotations. */
  predicate Differ(a: Observation, b: Observation) {
    || a.timestamp != b.timestamp || a.snrDb != b.snrDb
    || a.reporterGrid != b.reporterGrid || a.heardGrid != b.heardGrid
    || a.distanceKm != b.distanceKm || a.azimuthDegrees != b.azimuthDegrees
  }

  ghost predicate Disputed(s: seq<Observation>) {
    exists a, b :: a in s && b in s && Differ(a, b)
  }

  predicate LeastIdOf(s: seq<Observation>, o: Observation) {
    forall other :: other in s ==> !IdLess(other.observationId, o.observationId)
  }

  /**
   A side is in conflict exactly when two of its observations disagree.  Otherwise all but one are duplicates, and the
   one that represents them is finite or missing as they all are.
   */
  lemma SidesByFields(s: seq<Observation>)
    ensures var r := Resolve(s);
            && (r.conflict <==> Disputed(s))
            && (r.conflict ==> r == Resolved(None, false, 0, true))
            && (s == [] ==> r == Resolved(None, false, 0, false))
            && (s != [] && !Disputed(s) ==>
                  && r.duplicates == |s| - 1
                  && (r.finite.Some? <==> forall o :: o in s ==> HasFiniteSnr(o))
                  && (r.missingSnr <==> forall o :: o in s ==> !HasFiniteSnr(o))
                  && (r.finite.Some? ==> r.finite.value in s && LeastIdOf(s, r.finite.value)))
  {
    ConflictIffNotAllAlike(s);
    if s != [] {
      forall o | o in s
        ensures !IdLess(o.observationId, Least(s).observationId)
      {
        LeastIsLeast(s, o);
      }
      assert Least(s) in s;
    }
    hide Least, IdLess;
  }

  ghost predicate IsMissing(s: seq<Observation>) {
    s != [] && !Disputed(s) && forall o :: o in s ==> !HasFiniteSnr(o)
  }

  ghost predicate IsFinite(s: seq<Observation>) {
    s != [] && !Disputed(s) && forall o :: o in s ==> HasFiniteSnr(o)
  }

  /** What a group adds to each counter, by what its sides hold. */
  lemma ContributionsBySides(g: Group)
    ensures var c := Contribution(g);
            && c.leftFinite == One(IsFinite(g.left)) && c.rightFinite == One(IsFinite(g.right))
            && c.paired == One(IsFinite(g.left) && IsFinite(g.right))
            && c.unmatchedLeft == One(IsFinite(g.left) && !IsFinite(g.right) && !Disputed(g.right))
            && c.unmatchedRight == One(IsFinite(g.right) && !IsFinite(g.left) && !Disputed(g.left))
            && c.missingLeft == One(IsMissing(g.left)) && c.missingRight == One(IsMissing(g.right))
            && c.conflicts == One(Disputed(g.left)) + One(Disputed(g.right))
            && c.duplicates == (if g.left == [] || Disputed(g.left) then 0 else |g.left| - 1)
                               + (if g.right == [] || Disputed(g.right) then 0 else |g.right| - 1)
  {
    SidesByFields(g.left);
    SidesByFields(g.right);
    hide Resolve, Disputed, HasFiniteSnr, LeastIdOf;
  }

  // ----- rows -----

  ghost predicate PlacedOn(ctx: Context, cs: seq<Classified>, k: GroupKey, side: Side, o: Observation) {
    exists c :: c in cs && c.observation == o && Placement(ctx, c) == Some((k, side))
  }

  lemma {:induction false} PlacedIffPlacedOn(ctx: Context, cs: seq<Classified>, k: GroupKey, side: Side, o: Observation)
    ensures o in Placed(ctx, cs, k, side) <==> PlacedOn(ctx, cs, k, side, o)
  {
    hide Placement;
    if o in Placed(ctx, cs, k, side) {
      PlacedFrom(ctx, cs, k, side, o);
    } else if cs != [] {
      var n := |cs| - 1;
      PlacedIffPlacedOn(ctx, cs[..n], k, side, o);
      assert forall c :: c in cs ==> c in cs[..n] || c == cs[n];
    }
  }

  /** One side of a key: something is placed there, all of it agrees, and it has a finite ratio. */
  ghost predicate Settled(ctx: Context, cs: seq<Classified>, k: GroupKey, side: Side) {
    && (exists o :: PlacedOn(ctx, cs, k, side, o))
    && (forall a, b :: PlacedOn(ctx, cs, k, side, a) && PlacedOn(ctx, cs, k, side, b) ==> !Differ(a, b))
    && (forall o :: PlacedOn(ctx, cs, k, side, o) ==> HasFiniteSnr(o))
  }

  lemma {:induction false} SettledIffFinite(ctx: Context, cs: seq<Classified>, k: GroupKey, side: Side)
    ensures var r := Resolve(Placed(ctx, cs, k, side));
            && (Settled(ctx, cs, k, side) <==> r.finite.Some?)
            && (r.finite.Some? ==> IsLeastOn(ctx, cs, k, side, r.finite.value))
  {
    var s := Placed(ctx, cs, k, side);
    SidesByFields(s);
    forall o
      ensures o in s <==> PlacedOn(ctx, cs, k, side, o)
    {
      PlacedIffPlacedOn(ctx, cs, k, side, o);
    }
    hide Placed, PlacedOn, Resolve, IdLess;
    if s != [] {
      assert s[0] in s;
    }
  }

  /** What the row of a key says. */
  ghost predicate RowSays(ctx: Context, cs: seq<Classified>, k: GroupKey, row: PairedRow) {
    && IsLeastOn(ctx, cs, k, Left, row.left) && IsLeastOn(ctx, cs, k, Right, row.right)
    && HasFiniteSnr(row.left) && HasFiniteSnr(row.right) && row.delta == Snr(row.right) - Snr(row.left)
    && Within(row.elapsedSeconds, row.left.timestamp, row.right.timestamp)
    && k.block < |ctx.blocks| && ctx.blocks[k.block].order == Some(row.order)
  }

  lemma RowOfSides(blocks: seq<Block>, groups: map<GroupKey, Group>, k: GroupKey)
    requires k in groups && OrderAt(blocks, k.block).Some?
    ensures var rows, l, r := RowsOf(blocks, groups), Resolve(groups[k].left).finite, Resolve(groups[k].right).finite;
            && (k in rows <==> l.Some? && r.Some?)
            && (k in rows ==>
                  var row := rows[k];
                  && l == Some(row.left) && r == Some(row.right) && row.delta == Snr(row.right) - Snr(row.left)
                  && k.block < |blocks| && blocks[k.block].order == Some(row.order)
                  && Within(row.elapsedSeconds, row.left.timestamp, row.right.timestamp))
  {
    hide Resolve, NumSeconds, Within;
    var rows := RowsOf(blocks, groups);
    if k in rows {
      ElapsedIsWithin(rows[k].left.timestamp, rows[k].right.timestamp);
    }
  }

  lemma RowOfGroup(ctx: Context, cs: seq<Classified>, k: GroupKey)
    requires ComparisonConservation.OrderedWhereUsed(ctx.blocks, Groups(ctx, cs))
    ensures var rows := RowsOf(ctx.blocks, Groups(ctx, cs));
            && (k in rows <==> Settled(ctx, cs, k, Left) && Settled(ctx, cs, k, Right))
            && (k in rows ==> RowSays(ctx, cs, k, rows[k]))
  {
    hide Groups, Settled;
    var groups := Groups(ctx, cs);
    assert k in RowsOf(ctx.blocks, groups) ==> k in groups;
    hide RowsOf, OrderAt, Within, Resolve, Placed, IsLeastOn;
    if k in groups {
      RowOfSides(ctx.blocks, groups, k);
      SideOfGroup(ctx, cs, k);
      SettledIffFinite(ctx, cs, k, Left);
      SettledIffFinite(ctx, cs, k, Right);
    } else if Settled(ctx, cs, k, Left) {
      SettledIsGrouped(ctx, cs, k, Left);
    }
  }

  lemma SettledIsGrouped(ctx: Context, cs: seq<Classified>, k: GroupKey, side: Side)
    requires Settled(ctx, cs, k, side)
    ensures k in Groups(ctx, cs)
  {
    hide Placed, Placement, HasFiniteSnr;
    var o :| PlacedOn(ctx, cs, k, side, o);
    var c :| c in cs && c.observation == o && Placement(ctx, c) == Some((k, side));
  }

  /**
   A key has a row exactly when both its sides are settled; the row then holds the observation of the least id of each
   side, the difference of their ratios and the whole seconds between them.
   */
  lemma RowIffBothSidesSettled(callsign: string, slots: seq<AlignedSlot>, left: string, right: string,
                               cs: seq<Classified>, k: GroupKey)
    ensures var ctx := ContextOf(callsign, slots, left, right);
            var rows := Analyze(ctx, cs).rows;
            && (k in rows <==> Settled(ctx, cs, k, Left) && Settled(ctx, cs, k, Right))
            && (k in rows ==> RowSays(ctx, cs, k, rows[k]))
  {
    var ctx := ContextOf(callsign, slots, left, right);
    ComparisonConservation.GroupsHaveAnOrder(callsign, slots, left, right, cs);
    RowOfGroup(ctx, cs, k);
    hide Settled, RowSays, Groups, RowsOf, ContextOf;
  }

  ghost predicate IsLeastOn(ctx: Context, cs: seq<Classified>, k: GroupKey, side: Side, o: Observation) {
    && PlacedOn(ctx, cs, k, side, o)
    && forall other :: PlacedOn(ctx, cs, k, side, other) ==> !IdLess(other.observationId, o.observationId)
  }

  /** So many whole seconds lie between two instants, in either order. */
  predicate Within(seconds: int, a: Instant, b: Instant) {
    var apart := if a <= b then b - a else a - b;
    seconds * SECOND <= apart < (seconds + 1) * SECOND
  }

  lemma ElapsedIsWithin(a: Instant, b: Instant)
    ensures Within(Abs(NumSeconds(b - a)), a, b)
  {
  }

  lemma {:induction false} SideOfGroup(ctx: Context, cs: seq<Classified>, k: GroupKey)
    requires k in Groups(ctx, cs)
    ensures Groups(ctx, cs)[k] == Group(Placed(ctx, cs, k, Left), Placed(ctx, cs, k, Right))
  {
  }

  // ----- where an observation is placed -----

  predicate HoldsSlot(b: Block, slotId: string) {
    b.first.slotId == slotId || (b.second.Some? && b.second.value.slotId == slotId)
  }

  predicate IsLastHolding(blocks: seq<Block>, slotId: string, i: nat) {
    && i < |blocks| && HoldsSlot(blocks[i], slotId)
    && forall j :: i < j < |blocks| ==> !HoldsSlot(blocks[j], slotId)
  }

  lemma {:induction false} BlockOfIsLast(blocks: seq<Block>, slotId: string, i: nat)
    ensures BlockOf(blocks, slotId) == Some(i) <==> IsLastHolding(blocks, slotId, i)
  {
    if blocks != [] {
      BlockOfIsLast(blocks[..|blocks| - 1], slotId, i);
    }
  }

  /** The station itself, up to case and surrounding white space. */
  predicate IsOwn(callsign: string, call: Option<string>) {
    call.Some? && |Trim(call.value)| == |Trim(callsign)|
    && forall i :: 0 <= i < |Trim(callsign)| ==> Upper(Trim(call.value)[i]) == Upper(Trim(callsign)[i])
  }

  /** Upper case changes the letters a to z and nothing else. */
  lemma UpperByCharacters(c: char)
    ensures 'a' <= c <= 'z' ==> 'A' <= Upper(c) <= 'Z' && Upper(c) as int - 'A' as int == c as int - 'a' as int
    ensures !('a' <= c <= 'z') ==> Upper(c) == c
  {
  }

  /** A mode that says something and holds no control characters. */
  predicate IsProperMode(mode: Option<string>) {
    mode.Some? && HasText(mode.value) && forall i :: 0 <= i < |Trim(mode.value)| ==> !IsControl(Trim(mode.value)[i])
  }

  /** Control characters are those with codes below 32 and from 127 to 159. */
  lemma ControlByCode(c: char)
    ensures IsControl(c) <==> c as int < 32 || 127 <= c as int < 160
  {
  }

  lemma OwnIffSameCall(callsign: string, call: Option<string>)
    ensures SameCall(call, Trim(callsign)) <==> IsOwn(callsign, call)
  {
    hide Trim, Upper;
    if call.Some? {
      var a, b := AsciiUpper(Trim(call.value)), AsciiUpper(Trim(callsign));
      assert |a| == |Trim(call.value)| && |b| == |Trim(callsign)|;
      if a == b {
        forall i | 0 <= i < |b|
          ensures Upper(Trim(call.value)[i]) == Upper(Trim(callsign)[i])
        {
          assert a[i] == b[i];
        }
      }
    }
  }

  /** Exactly one of the two ends is the station, and the other is named. */
  predicate HasPath(callsign: string, o: Observation) {
    var sent, received := IsOwn(callsign, o.heardCall), IsOwn(callsign, o.reporterCall);
    var remote := if sent then o.reporterCall else o.heardCall;
    sent != received && remote.Some? && HasText(remote.value)
  }

  lemma PathIffHasPath(callsign: string, o: Observation)
    ensures PathIdentity(callsign, o).Some? <==> HasPath(callsign, o)
    ensures ModeOf(o).Some? <==> IsProperMode(o.mode)
    ensures ModeMissing(o) <==> o.mode.None? || !HasText(o.mode.value)
  {
    OwnIffSameCall(callsign, o.heardCall);
    OwnIffSameCall(callsign, o.reporterCall);
    if o.heardCall.Some? {
      BlankIffNoText(o.heardCall.value);
    }
    if o.reporterCall.Some? {
      BlankIffNoText(o.reporterCall.value);
    }
    if o.mode.Some? {
      BlankIffNoText(o.mode.value);
    }
    hide SameCall, IsOwn, HasText, Trim, AsciiUpper, IsControl;
  }

  /**
   An observation lies on a path exactly when the station is one of its two ends, the other end is named and its mode is
   proper: the path is the other end's, in the direction in which the station took part.
   */
  lemma PathByFields(callsign: string, o: Observation)
    ensures PathKeyOf(callsign, o).Some? <==> HasPath(callsign, o) && IsProperMode(o.mode)
    ensures PathKeyOf(callsign, o).Some? ==>
              var sent := IsOwn(callsign, o.heardCall);
              var remote := if sent then o.reporterCall else o.heardCall;
              PathKeyOf(callsign, o).value
              == PathKey(Stratum(if sent then Transmit else Receive, o.band, AsciiUpper(Trim(o.mode.value)), o.kind,
                                 o.source),
                         AsciiUpper(Trim(remote.value)))
  {
    PathIffHasPath(callsign, o);
    OwnIffSameCall(callsign, o.heardCall);
    OwnIffSameCall(callsign, o.reporterCall);
    hide SameCall, IsOwn, HasText, Trim, AsciiUpper, IsControl;
  }

  /**
   An observation is placed at a key exactly when it is usable, the last block that holds its slot is the key's and is
   eligible, its label is its side's, and it lies on the key's path.
   */
  lemma PlacementByFields(ctx: Context, c: Classified, k: GroupKey, side: Side)
    requires ctx.left != ctx.right
    ensures Placement(ctx, c) == Some((k, side)) <==>
              && c.disposition == Usable && c.assignment.slotId.Some?
              && IsLastHolding(ctx.blocks, c.assignment.slotId.value, k.block)
              && ctx.blocks[k.block].eligibility == Eligible
              && c.assignment.slotLabel == Some(if side == Left then ctx.left else ctx.right)
              && PathKeyOf(ctx.callsign, c.observation) == Some(k.on)
  {
    if c.assignment.slotId.Some? {
      BlockOfIsLast(ctx.blocks, c.assignment.slotId.value, k.block);
    }
    hide BlockOf, PathKeyOf, IsLastHolding;
  }

  // ----- counts and availability -----

  /** The seat of an observation, whatever its path and mode. */
  ghost predicate Seated(ctx: Context, c: Classified) {
    && c.disposition == Usable && c.assignment.slotId.Some?
    && (c.assignment.slotLabel == Some(ctx.left) || c.assignment.slotLabel == Some(ctx.right))
    && exists i: nat :: IsLastHolding(ctx.blocks, c.assignment.slotId.value, i) && ctx.blocks[i].eligibility == Eligible
  }

  lemma SeatIffSeated(ctx: Context, c: Classified)
    ensures Seat(ctx, c).Some? <==> Seated(ctx, c)
  {
    if c.assignment.slotId.Some? {
      var id := c.assignment.slotId.value;
      forall i: nat
        ensures BlockOf(ctx.blocks, id) == Some(i) <==> IsLastHolding(ctx.blocks, id, i)
      {
        BlockOfIsLast(ctx.blocks, id, i);
      }
    }
    hide BlockOf, IsLastHolding;
  }

  lemma {:induction false} CountIfSome(cs: seq<Classified>, p: Classified -> bool)
    ensures CountIf(cs, p) > 0 <==> exists c :: c in cs && p(c)
  {
    if cs != [] {
      CountIfSome(cs[..|cs| - 1], p);
      assert forall c :: c in cs <==> c in cs[..|cs| - 1] || c == cs[|cs| - 1];
    }
  }

  /** What each counter of observations counts: it is positive exactly when there is such an observation. */
  lemma CountsByFields(ctx: Context, cs: seq<Classified>)
    ensures var counts := CountAll(ctx, cs);
            && (counts.excluded > 0 <==> exists c :: c in cs && c.disposition != Usable)
            && (counts.ambiguousPath > 0 <==>
                  exists c :: c in cs && Seated(ctx, c) && !HasPath(ctx.callsign, c.observation))
            && (counts.missingMode > 0 <==>
                  exists c :: c in cs && Seated(ctx, c)
                    && (c.observation.mode.None? || !HasText(c.observation.mode.value)))
            && (counts.malformedMode > 0 <==>
                  exists c :: c in cs && Seated(ctx, c) && !IsProperMode(c.observation.mode)
                    && c.observation.mode.Some? && HasText(c.observation.mode.value))
  {
    forall c
      ensures Seat(ctx, c).Some? <==> Seated(ctx, c)
      ensures PathIdentity(ctx.callsign, c.observation).Some? <==> HasPath(ctx.callsign, c.observation)
      ensures ModeOf(c.observation).Some? <==> IsProperMode(c.observation.mode)
      ensures ModeMissing(c.observation) <==> c.observation.mode.None? || !HasText(c.observation.mode.value)
    {
      SeatIffSeated(ctx, c);
      PathIffHasPath(ctx.callsign, c.observation);
    }
    hide Seat, PathIdentity, ModeOf, ModeMissing, Seated, HasPath, HasText;
    CountIfSome(cs, (c: Classified) => c.disposition.Excluded?);
    CountIfSome(cs, (c: Classified) => Seat(ctx, c).Some? && PathIdentity(ctx.callsign, c.observation).None?);
    CountIfSome(cs, (c: Classified) => Seat(ctx, c).Some? && ModeOf(c.observation).None?
                && ModeMissing(c.observation));
    CountIfSome(cs, (c: Classified) => Seat(ctx, c).Some? && ModeOf(c.observation).None?
                && !ModeMissing(c.observation));
  }

  /** Pairs are available exactly when there are rows, and otherwise it is said whether a block was eligible. */
  lemma AvailabilityByRows(callsign: string, slots: seq<AlignedSlot>, left: string, right: string, cs: seq<Classified>)
    ensures var ctx := ContextOf(callsign, slots, left, right);
            var a := Analyze(ctx, cs);
            && (a.availability == DescriptivePairsAvailable <==> a.rows != map[])
            && (a.availability == NoEligibleBlocks <==> forall b :: b in ctx.blocks ==> b.eligibility != Eligible)
  {
    var ctx := ContextOf(callsign, slots, left, right);
    var rows := Analyze(ctx, cs).rows;
    if rows != map[] {
      var k :| k in rows;
      var c :| c in cs && Placement(ctx, c).Some? && Placement(ctx, c).value.0 == k;
      assert ctx.blocks[k.block] in ctx.blocks;
    }
    hide ContextOf, Groups, RowsOf;
  }

  // ----- strata -----

  /** The blocks of a stratum whose rows have an order, or any. */
  ghost function BlocksWith(rows: map<GroupKey, PairedRow>, s: Stratum, order: Option<Order>): set<nat> {
    set k | k in rows && k.on.stratum == s && (order.None? || order == Some(rows[k].order)) :: k.block
  }

  /** Some excluded observation lies on a path of the stratum. */
  ghost predicate HasExclusion(callsign: string, cs: seq<Classified>, s: Stratum) {
    exists c :: c in cs && c.disposition != Usable && PathKeyOf(callsign, c.observation).Some?
      && PathKeyOf(callsign, c.observation).value.stratum == s
  }

  /** The strata are those of the placed and of the excluded observations. */
  lemma StrataAreThose(ctx: Context, cs: seq<Classified>, s: Stratum)
    ensures s in Analyze(ctx, cs).strata <==>
              || (exists c :: c in cs && Placement(ctx, c).Some? && Placement(ctx, c).value.0.on.stratum == s)
              || HasExclusion(ctx.callsign, cs, s)
  {
    GroupedStrata(ctx, cs, s);
    hide Placement, PathKeyOf, Groups, RowsOf, SummarizeStratum, Paths, Total, Overlaps, CountAll, CountBlocks,
         StrataOf, AvailabilityOf;
  }

  /** A stratum counts its blocks and those of each order, and exclusions of observations on its paths. */
  lemma StrataByRows(ctx: Context, cs: seq<Classified>, s: Stratum)
    requires s in Analyze(ctx, cs).strata
    ensures var rows, j := Analyze(ctx, cs).rows, Analyze(ctx, cs).strata[s];
            && j.blockCount == |BlocksWith(rows, s, None)|
            && j.leftThenRight == |BlocksWith(rows, s, Some(LeftThenRight))|
            && j.rightThenLeft == |BlocksWith(rows, s, Some(RightThenLeft))|
            && (j.excluded > 0 <==> HasExclusion(ctx.callsign, cs, s))
  {
    var groups := Groups(ctx, cs);
    var rows := RowsOf(ctx.blocks, groups);
    CountIfSome(cs, ExcludedFrom(ctx.callsign, s));
    hide Groups, RowsOf, PathKeyOf, CountIf;
    BlocksOfStratum(groups, rows, Paths(rows), CountIf(cs, ExcludedFrom(ctx.callsign, s)), s);
    hide SummarizeStratum, Paths, Total, Overlaps, CountAll, CountBlocks, StrataOf, ExclusionStrata, AvailabilityOf,
         BlocksWith;
  }

  lemma BlocksOfStratum(groups: map<GroupKey, Group>, rows: map<GroupKey, PairedRow>, paths: map<PathKey, PathSummary>,
                        excluded: nat, s: Stratum)
    ensures var j := SummarizeStratum(groups, rows, paths, excluded, s);
            && j.blockCount == |BlocksWith(rows, s, None)| && j.excluded == excluded
            && j.leftThenRight == |BlocksWith(rows, s, Some(LeftThenRight))|
            && j.rightThenLeft == |BlocksWith(rows, s, Some(RightThenLeft))|
  {
    var keys := OnStratum(rows.Keys, s);
    assert BlocksIn(keys) == BlocksWith(rows, s, None);
    assert BlocksIn(Ordered(rows, keys, LeftThenRight)) == BlocksWith(rows, s, Some(LeftThenRight));
    assert BlocksIn(Ordered(rows, keys, RightThenLeft)) == BlocksWith(rows, s, Some(RightThenLeft));
    hide Sort, Listing, Median, Medians, Deltas, Total, BlocksIn, Ordered, OnStratum, PathsIn, BlocksWith;
  }

  lemma GroupedStrata(ctx: Context, cs: seq<Classified>, s: Stratum)
    ensures s in StrataOf(Groups(ctx, cs).Keys) <==>
              exists c :: c in cs && Placement(ctx, c).Some? && Placement(ctx, c).value.0.on.stratum == s
  {
    hide Placement, Placed;
    assert Groups(ctx, cs).Keys == KeysOf(ctx, cs);
    if c :| c in cs && Placement(ctx, c).Some? && Placement(ctx, c).value.0.on.stratum == s {
      assert Placement(ctx, c).value.0 in KeysOf(ctx, cs);
    }
  }

  function BlocksThat(blocks: seq<Block>, p: Block -> bool): seq<Block> {
    if blocks == [] then []
    else BlocksThat(blocks[..|blocks| - 1], p) + (if p(blocks[|blocks| - 1]) then [blocks[|blocks| - 1]] else [])
  }

  /** Each block counter is the number of such blocks. */
  lemma {:induction false} BlocksAreCounted(blocks: seq<Block>)
    ensures var c := CountBlocks(blocks);
            && c.blocks == |blocks|
            && c.eligible == |BlocksThat(blocks, (b: Block) => b.eligibility == Eligible)|
            && c.invalid == |BlocksThat(blocks, (b: Block) => b.eligibility != Eligible)|
            && c.leftThenRight == |BlocksThat(blocks, (b: Block) => b.order == Some(LeftThenRight))|
            && c.rightThenLeft == |BlocksThat(blocks, (b: Block) => b.order == Some(RightThenLeft))|
  {
    if blocks != [] {
      BlocksAreCounted(blocks[..|blocks| - 1]);
    }
  }
}
