/**
 The paired antenna comparison: what the grouping, resolution, pairing and summaries mean.

 The program keeps its rows sorted by stratum, path and block; here each list is the map from
 that sort key to its row, which the sorted list enumerates.
 */
module Comparison {
  import opened Prelude
  import opened Records
  import opened Alignment
  import opened Attribution
  import opened ComparisonBlocks
  import opened Bags

  datatype Direction = Transmit | Receive

  datatype Stratum = Stratum(direction: Direction, band: Band, mode: string, kind: ObservationKind,
                             source: RecordSource)

  datatype Side = Left | Right

  datatype PathKey = PathKey(stratum: Stratum, path: string)

  datatype GroupKey = GroupKey(on: PathKey, block: nat)

  datatype Classified = Classified(observation: Observation, assignment: Assignment, disposition: Disposition)

  datatype Context = Context(callsign: string, blocks: seq<Block>, left: string, right: string)

  function ContextOf(callsign: string, slots: seq<AlignedSlot>, left: string, right: string): Context {
    Context(callsign, BlocksOf(InSequence(slots), left, right), left, right)
  }

  // ----- identifying a path and a mode -----

  function Upper(c: char): char {
    if 'a' <= c <= 'z' then (c as int - 'a' as int + 'A' as int) as char else c
  }

  function AsciiUpper(s: string): (r: string)
    ensures |r| == |s|
  {
    seq(|s|, i requires 0 <= i < |s| => Upper(s[i]))
  }

  predicate SameCall(a: Option<string>, trimmedCall: string) {
    a.Some? && AsciiUpper(Trim(a.value)) == AsciiUpper(trimmedCall)
  }

  function RemotePath(call: Option<string>, direction: Direction): Option<(Direction, string)> {
    if call.Some? && Trim(call.value) != "" then Some((direction, AsciiUpper(Trim(call.value)))) else None
  }

  function PathIdentity(callsign: string, o: Observation): Option<(Direction, string)> {
    var isReporter, isHeard := SameCall(o.reporterCall, Trim(callsign)), SameCall(o.heardCall, Trim(callsign));
    if !isReporter && isHeard then RemotePath(o.reporterCall, Transmit)
    else if isReporter && !isHeard then RemotePath(o.heardCall, Receive)
    else None
  }

  predicate IsControl(c: char) {
    c <= '\U{001F}' || '\U{007F}' <= c <= '\U{009F}'
  }

  function NormalizeMode(mode: string): Option<string> {
    var value := Trim(mode);
    if value == "" || exists i :: 0 <= i < |value| && IsControl(value[i]) then None else Some(AsciiUpper(value))
  }

  function ModeOf(o: Observation): Option<string> {
    if o.mode.None? then None else NormalizeMode(o.mode.value)
  }

  function PathKeyOf(callsign: string, o: Observation): Option<PathKey> {
    var path, mode := PathIdentity(callsign, o), ModeOf(o);
    if path.Some? && mode.Some? then
      Some(PathKey(Stratum(path.value.0, o.band, mode.value, o.kind, o.source), path.value.1))
    else None
  }

  // ----- placing an observation in a block, on a side -----

  /** The last block holding a slot of this id. */
  function BlockOf(blocks: seq<Block>, slotId: string): (i: Option<nat>)
    ensures i.Some? ==> i.value < |blocks|
  {
    if blocks == [] then None
    else
      var n := |blocks| - 1;
      var b := blocks[n];
      if b.first.slotId == slotId || (b.second.Some? && b.second.value.slotId == slotId) then Some(n)
      else BlockOf(blocks[..n], slotId)
  }

  function SideOf(ctx: Context, antenna: Option<string>): Option<Side> {
    if antenna == Some(ctx.left) then Some(Left)
    else if antenna == Some(ctx.right) then Some(Right)
    else None
  }

  /** The eligible block and the side a usable observation belongs to, if any. */
  function Seat(ctx: Context, c: Classified): (seat: Option<(nat, Side)>)
    ensures seat.Some? ==> seat.value.0 < |ctx.blocks| && ctx.blocks[seat.value.0].eligibility == Eligible
  {
    if c.disposition != Usable || c.assignment.slotId.None? then None
    else
      var block, side := BlockOf(ctx.blocks, c.assignment.slotId.value), SideOf(ctx, c.assignment.slotLabel);
      if block.None? || ctx.blocks[block.value].eligibility != Eligible || side.None? then None
      else Some((block.value, side.value))
  }

  function Placement(ctx: Context, c: Classified): (p: Option<(GroupKey, Side)>)
    ensures p.Some? ==> p.value.0.block < |ctx.blocks| && ctx.blocks[p.value.0.block].eligibility == Eligible
  {
    var seat, path := Seat(ctx, c), PathKeyOf(ctx.callsign, c.observation);
    if seat.Some? && path.Some? then Some((GroupKey(path.value, seat.value.0), seat.value.1)) else None
  }

  datatype Group = Group(left: seq<Observation>, right: seq<Observation>)

  function Placed(ctx: Context, cs: seq<Classified>, key: GroupKey, side: Side): seq<Observation> {
    if cs == [] then []
    else
      var n := |cs| - 1;
      Placed(ctx, cs[..n], key, side) + (if Placement(ctx, cs[n]) == Some((key, side)) then [cs[n].observation] else [])
  }

  function KeysOf(ctx: Context, cs: seq<Classified>): set<GroupKey> {
    set c | c in cs && Placement(ctx, c).Some? :: Placement(ctx, c).value.0
  }

  function Groups(ctx: Context, cs: seq<Classified>): map<GroupKey, Group> {
    map k | k in KeysOf(ctx, cs) :: Group(Placed(ctx, cs, k, Left), Placed(ctx, cs, k, Right))
  }

  // ----- resolving one side of a group -----

  /** The first observation with the least id: the head after a stable sort by id. */
  function Least(s: seq<Observation>): (o: Observation)
    requires s != []
    ensures o in s
  {
    if |s| == 1 then s[0]
    else
      var rest := Least(s[1..]);
      if IdLess(rest.observationId, s[0].observationId) then rest else s[0]
  }

  predicate ExactDuplicates(a: Observation, b: Observation) {
    && a.timestamp == b.timestamp && a.snrDb == b.snrDb
    && a.reporterGrid == b.reporterGrid && a.heardGrid == b.heardGrid
    && a.distanceKm == b.distanceKm && a.azimuthDegrees == b.azimuthDegrees
  }

  datatype Resolved = Resolved(finite: Option<Observation>, missingSnr: bool, duplicates: nat, conflict: bool)

  predicate HasFiniteSnr(o: Observation) {
    o.snrDb.Some? && o.snrDb.value.Finite?
  }

  function Resolve(s: seq<Observation>): (r: Resolved)
    ensures r.finite.Some? ==> HasFiniteSnr(r.finite.value) && r.finite.value in s
  {
    if s == [] then Resolved(None, false, 0, false)
    else
      var first := Least(s);
      if exists o :: o in s && !ExactDuplicates(first, o) then Resolved(None, false, 0, true)
      else if HasFiniteSnr(first) then Resolved(Some(first), false, |s| - 1, false)
      else Resolved(None, true, |s| - 1, false)
  }

  // ----- pairing -----

  datatype PairedRow = PairedRow(order: Order, left: Observation, right: Observation, elapsedSeconds: int, delta: real)

  function Abs(x: int): int {
    if x < 0 then -x else x
  }

  function Snr(o: Observation): real
    requires HasFiniteSnr(o)
  {
    o.snrDb.value.value
  }

  function RowOf(order: Option<Order>, g: Group): Option<PairedRow> {
    var left, right := Resolve(g.left).finite, Resolve(g.right).finite;
    if order.None? || left.None? || right.None? then None
    else
      Some(PairedRow(order.value, left.value, right.value,
                     Abs(NumSeconds(right.value.timestamp - left.value.timestamp)), Snr(right.value) - Snr(left.value)))
  }

  function OrderAt(blocks: seq<Block>, i: nat): Option<Order> {
    if i < |blocks| then blocks[i].order else None
  }

  function RowsOf(blocks: seq<Block>, groups: map<GroupKey, Group>): map<GroupKey, PairedRow> {
    map k | k in groups && RowOf(OrderAt(blocks, k.block), groups[k]).Some? ::
      RowOf(OrderAt(blocks, k.block), groups[k]).value
  }

  // ----- counters -----

  datatype Tally = Tally(
    leftFinite: nat, rightFinite: nat, paired: nat, unmatchedLeft: nat, unmatchedRight: nat,
    missingLeft: nat, missingRight: nat, duplicates: nat, conflicts: nat)

  const NO_TALLY: Tally := Tally(0, 0, 0, 0, 0, 0, 0, 0, 0)

  function Add(a: Tally, b: Tally): Tally {
    Tally(a.leftFinite + b.leftFinite, a.rightFinite + b.rightFinite, a.paired + b.paired,
          a.unmatchedLeft + b.unmatchedLeft, a.unmatchedRight + b.unmatchedRight,
          a.missingLeft + b.missingLeft, a.missingRight + b.missingRight,
          a.duplicates + b.duplicates, a.conflicts + b.conflicts)
  }

  function One(b: bool): nat {
    if b then 1 else 0
  }

  /** What one group adds to every accumulator it feeds. */
  function Contribution(g: Group): Tally {
    var l, r := Resolve(g.left), Resolve(g.right);
    Tally(One(l.finite.Some?), One(r.finite.Some?), One(l.finite.Some? && r.finite.Some?),
          One(l.finite.Some? && r.finite.None? && !r.conflict), One(r.finite.Some? && l.finite.None? && !l.conflict),
          One(l.missingSnr), One(r.missingSnr), l.duplicates + r.duplicates, One(l.conflict) + One(r.conflict))
  }

  ghost function Total(groups: map<GroupKey, Group>, keys: set<GroupKey>): Tally
    requires keys <= groups.Keys
  {
    if keys == {} then NO_TALLY
    else
      var k := Pick(keys);
      Add(Total(groups, keys - {k}), Contribution(groups[k]))
  }

  function OnPath(keys: set<GroupKey>, p: PathKey): (some: set<GroupKey>)
    ensures some <= keys
  {
    set k | k in keys && k.on == p
  }

  function OnStratum(keys: set<GroupKey>, s: Stratum): (some: set<GroupKey>)
    ensures some <= keys
  {
    set k | k in keys && k.on.stratum == s
  }

  function PathsOf(keys: set<GroupKey>): set<PathKey> {
    set k | k in keys :: k.on
  }

  function StrataOf(keys: set<GroupKey>): set<Stratum> {
    set k | k in keys :: k.on.stratum
  }

  ghost function Overlaps(groups: map<GroupKey, Group>): map<PathKey, Tally> {
    map p | p in PathsOf(groups.Keys) :: Total(groups, OnPath(groups.Keys, p))
  }

  // ----- summaries -----

  datatype PathSummary = PathSummary(rowCount: nat, medianDelta: real)

  function Deltas(rows: map<GroupKey, PairedRow>): (deltas: map<GroupKey, real>)
    ensures deltas.Keys == rows.Keys
  {
    map k | k in rows :: rows[k].delta
  }

  ghost function SummarizePath(rows: map<GroupKey, PairedRow>, p: PathKey): PathSummary
    requires p in PathsOf(rows.Keys)
  {
    var keys := OnPath(rows.Keys, p);
    assert keys != {} by { var k :| k in rows.Keys && k.on == p; assert k in keys; }
    PathSummary(|keys|, Median(Sort(Listing(Deltas(rows), keys))))
  }

  ghost function Paths(rows: map<GroupKey, PairedRow>): map<PathKey, PathSummary> {
    map p | p in PathsOf(rows.Keys) :: SummarizePath(rows, p)
  }

  datatype StratumSummary = StratumSummary(
    rowCount: nat, pathCount: nat, blockCount: nat, leftThenRight: nat, rightThenLeft: nat, tally: Tally, excluded: nat,
    minimumDelta: Option<real>, medianPathDelta: Option<real>, maximumDelta: Option<real>)

  function BlocksIn(keys: set<GroupKey>): set<nat> {
    set k | k in keys :: k.block
  }

  function Ordered(rows: map<GroupKey, PairedRow>, keys: set<GroupKey>, order: Order): set<GroupKey>
    requires keys <= rows.Keys
  {
    set k | k in keys && rows[k].order == order
  }

  function Medians(paths: map<PathKey, PathSummary>): (medians: map<PathKey, real>)
    ensures medians.Keys == paths.Keys
  {
    map p | p in paths :: paths[p].medianDelta
  }

  function PathsIn(paths: map<PathKey, PathSummary>, s: Stratum): (some: set<PathKey>)
    ensures some <= paths.Keys
  {
    set p | p in paths && p.stratum == s
  }

  ghost function SummarizeStratum(groups: map<GroupKey, Group>, rows: map<GroupKey, PairedRow>,
                                  paths: map<PathKey, PathSummary>, excluded: nat, s: Stratum): StratumSummary
  {
    var keys := OnStratum(rows.Keys, s);
    var deltas := Sort(Listing(Deltas(rows), keys));
    var medians := Sort(Listing(Medians(paths), PathsIn(paths, s)));
    StratumSummary(
      |keys|, |medians|, |BlocksIn(keys)|,
      |BlocksIn(Ordered(rows, keys, LeftThenRight))|, |BlocksIn(Ordered(rows, keys, RightThenLeft))|,
      Total(groups, OnStratum(groups.Keys, s)), excluded,
      if deltas == [] then None else Some(deltas[0]),
      if medians == [] then None else Some(Median(medians)),
      if deltas == [] then None else Some(deltas[|deltas| - 1]))
  }

  // ----- counts over the observations -----

  function CountIf(cs: seq<Classified>, p: Classified -> bool): nat {
    if cs == [] then 0 else CountIf(cs[..|cs| - 1], p) + One(p(cs[|cs| - 1]))
  }

  function ExcludedFrom(callsign: string, s: Stratum): Classified -> bool {
    (c: Classified) => c.disposition.Excluded? && PathKeyOf(callsign, c.observation).Some?
                       && PathKeyOf(callsign, c.observation).value.stratum == s
  }

  function ExclusionStrata(callsign: string, cs: seq<Classified>): set<Stratum> {
    set c | c in cs && c.disposition.Excluded? && PathKeyOf(callsign, c.observation).Some? ::
      PathKeyOf(callsign, c.observation).value.stratum
  }

  datatype Counts = Counts(excluded: nat, ambiguousPath: nat, missingMode: nat, malformedMode: nat)

  predicate ModeMissing(o: Observation) {
    o.mode.None? || IsBlank(o.mode.value)
  }

  function CountAll(ctx: Context, cs: seq<Classified>): Counts {
    Counts(CountIf(cs, (c: Classified) => c.disposition.Excluded?),
           CountIf(cs, (c: Classified) => Seat(ctx, c).Some? && PathIdentity(ctx.callsign, c.observation).None?),
           CountIf(cs, (c: Classified) => Seat(ctx, c).Some? && ModeOf(c.observation).None?
                   && ModeMissing(c.observation)),
           CountIf(cs, (c: Classified) => Seat(ctx, c).Some? && ModeOf(c.observation).None?
                   && !ModeMissing(c.observation)))
  }

  // ----- counts over the blocks and the rows -----

  datatype BlockCounts = BlockCounts(blocks: nat, eligible: nat, invalid: nat, leftThenRight: nat, rightThenLeft: nat)

  function CountBlocks(blocks: seq<Block>): BlockCounts {
    if blocks == [] then BlockCounts(0, 0, 0, 0, 0)
    else
      var b, before := blocks[|blocks| - 1], CountBlocks(blocks[..|blocks| - 1]);
      BlockCounts(before.blocks + 1, before.eligible + One(b.eligibility == Eligible),
                  before.invalid + One(b.eligibility != Eligible),
                  before.leftThenRight + One(b.order == Some(LeftThenRight)),
                  before.rightThenLeft + One(b.order == Some(RightThenLeft)))
  }

  /** The remote stations of the paired rows, whatever their strata. */
  function RemotePaths(rows: map<GroupKey, PairedRow>): set<string> {
    set k | k in rows :: k.on.path
  }

  // ----- the whole analysis -----

  datatype Availability = NoEligibleBlocks | NoMatchedPaths | DescriptivePairsAvailable

  datatype Analysis = Analysis(
    availability: Availability, blocks: seq<Block>, rows: map<GroupKey, PairedRow>, overlaps: map<PathKey, Tally>,
    paths: map<PathKey, PathSummary>, strata: map<Stratum, StratumSummary>, total: Tally, counts: Counts,
    blockCounts: BlockCounts, uniquePaths: nat)

  ghost function Strata(ctx: Context, cs: seq<Classified>, groups: map<GroupKey, Group>, rows: map<GroupKey, PairedRow>)
    : map<Stratum, StratumSummary>
  {
    map s | s in StrataOf(groups.Keys) + ExclusionStrata(ctx.callsign, cs) ::
      SummarizeStratum(groups, rows, Paths(rows), CountIf(cs, ExcludedFrom(ctx.callsign, s)), s)
  }

  function AvailabilityOf(blocks: seq<Block>, rows: map<GroupKey, PairedRow>): Availability {
    if forall b :: b in blocks ==> b.eligibility != Eligible then NoEligibleBlocks
    else if rows == map[] then NoMatchedPaths
    else DescriptivePairsAvailable
  }

  ghost function Analyze(ctx: Context, cs: seq<Classified>): Analysis {
    var groups := Groups(ctx, cs);
    var rows := RowsOf(ctx.blocks, groups);
    Analysis(AvailabilityOf(ctx.blocks, rows), ctx.blocks, rows, Overlaps(groups), Paths(rows),
             Strata(ctx, cs, groups, rows), Total(groups, groups.Keys), CountAll(ctx, cs),
             CountBlocks(ctx.blocks), |RemotePaths(rows)|)
  }
}
