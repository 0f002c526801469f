/** Reporter activity: who listened in each cycle, who heard, and what both antennas had in common. */
module Activity {
  import opened Prelude
  import opened Records
  import opened Alignment
  import opened Attribution
  import opened ComparisonBlocks
  import opened Comparison

  datatype UnknownReason = UnsupportedReceiveDirection | UnsupportedSignalMode | NoCensusCoverage

  datatype Coverage = Unknown(reason: UnknownReason) | Truncated | Partial | Complete

  /** A census summary always says how complete it is. */
  type KnownCoverage = c: Coverage | !c.Unknown? witness Complete

  datatype CensusSummary = CensusSummary(
    recordId: string, windowStart: Instant, windowEnd: Instant, bands: seq<Band>, coverage: KnownCoverage)

  datatype CensusKey = CensusKey(time: Instant, band: Band)

  datatype Reporter = Reporter(name: string, grid: Option<string>, recordId: string)

  /** Reporters listed by name. */
  type Roster = map<string, Reporter>

  datatype CensusCycle = CensusCycle(key: CensusKey, coverage: Coverage, reporters: Roster, summaryIds: seq<string>)

  datatype CycleRate = CycleRate(
    stratum: Stratum, block: Option<nat>, side: Option<Side>, slotId: string, label_: string, startsAt: Instant,
    censusIndex: Option<nat>, coverage: Coverage, activeCount: nat, heardCount: nat, rate: Option<real>,
    heard: set<string>)

  datatype JointOutcome = HeardBoth | LeftOnly | RightOnly | HeardNeither

  datatype JointReceiver = JointReceiver(grid: Option<string>, outcome: JointOutcome)

  datatype PairedRate = PairedRate(
    stratum: Stratum, block: nat, order: Order, coverage: Coverage, leftSlotId: string, rightSlotId: string,
    activeInBoth: nat, leftHeard: nat, rightHeard: nat, leftRate: Option<real>, rightRate: Option<real>,
    both: nat, leftOnly: nat, rightOnly: nat, neither: nat, receivers: map<string, JointReceiver>)

  const NOMINAL_START_OFFSET: int := SECOND

  // ----- coverage -----

  function CoverageRank(c: Coverage): nat {
    match c
    case Unknown(_) => 0
    case Truncated => 1
    case Partial => 2
    case Complete => 3
  }

  function CombinedCoverage(left: Coverage, right: Coverage): Coverage {
    if left.Unknown? then left
    else if right.Unknown? then right
    else if left.Truncated? || right.Truncated? then Truncated
    else if left.Partial? || right.Partial? then Partial
    else Complete
  }

  function Min(a: nat, b: nat): nat {
    if a <= b then a else b
  }

  lemma CombinedRankIsLeast(left: Coverage, right: Coverage)
    ensures CoverageRank(CombinedCoverage(left, right)) == Min(CoverageRank(left), CoverageRank(right))
  {
  }

  predicate CoversCycle(s: CensusSummary, time: Instant, band: Band) {
    s.windowStart <= time < s.windowEnd && band in s.bands
  }

  /** The coverage of some summary of the cycle that none of its summaries beats; unknown if it has none. */
  ghost predicate BestCoverage(coverage: Coverage, time: Instant, band: Band, summaries: seq<CensusSummary>) {
    && (forall s :: s in summaries && CoversCycle(s, time, band) ==> CoverageRank(s.coverage) <= CoverageRank(coverage))
    && if exists s :: s in summaries && CoversCycle(s, time, band)
       then exists s :: s in summaries && CoversCycle(s, time, band) && s.coverage == coverage
       else coverage == Unknown(NoCensusCoverage)
  }

  method BestRank(time: Instant, band: Band, summaries: seq<CensusSummary>) returns (best: Option<nat>)
    ensures best.None? <==> forall s :: s in summaries ==> !CoversCycle(s, time, band)
    ensures best.Some? ==>
              && (forall s :: s in summaries && CoversCycle(s, time, band) ==> CoverageRank(s.coverage) <= best.value)
              && (exists s :: s in summaries && CoversCycle(s, time, band) && CoverageRank(s.coverage) == best.value)
  {
    best := None;
    var i := 0;
    hide CoversCycle, CoverageRank;
    while i < |summaries|
      invariant 0 <= i <= |summaries|
      invariant best.None? <==> forall s :: s in summaries[..i] ==> !CoversCycle(s, time, band)
      invariant best.Some? ==>
                  && (forall s :: s in summaries[..i] && CoversCycle(s, time, band) ==>
                        CoverageRank(s.coverage) <= best.value)
                  && (exists s ::
                        s in summaries[..i] && CoversCycle(s, time, band) && CoverageRank(s.coverage) == best.value)
    {
      TakeNext(summaries, i);
      var s := summaries[i];
      if CoversCycle(s, time, band) {
        var rank := CoverageRank(s.coverage);
        best := Some(if best.Some? && best.value >= rank then best.value else rank);
      }
      i := i + 1;
    }
    assert summaries[..|summaries|] == summaries;
  }

  function InsertId(ids: seq<string>, id: string): seq<string> {
    if ids == [] || IdLess(id, ids[0]) then [id] + ids else [ids[0]] + InsertId(ids[1..], id)
  }

  /** The ids of the summaries of a cycle with a given rank, in order. */
  function RankedIds(summaries: seq<CensusSummary>, time: Instant, band: Band, rank: nat): seq<string> {
    if summaries == [] then []
    else
      var n := |summaries| - 1;
      var ids := RankedIds(summaries[..n], time, band, rank);
      if CoversCycle(summaries[n], time, band) && CoverageRank(summaries[n].coverage) == rank
      then InsertId(ids, summaries[n].recordId)
      else ids
  }

  /** The summaries of a cycle with a given rank, sorted by id. */
  method Covering(time: Instant, band: Band, summaries: seq<CensusSummary>, rank: nat)
    returns (covering: seq<CensusSummary>)
    ensures forall s :: s in covering <==>
              s in summaries && CoversCycle(s, time, band) && CoverageRank(s.coverage) == rank
    ensures RecordIds(covering) == RankedIds(summaries, time, band, rank)
  {
    covering := [];
    var i := 0;
    assert RecordIds([]) == [];
    hide CoversCycle, CoverageRank, RecordIds;
    while i < |summaries|
      invariant 0 <= i <= |summaries|
      invariant forall s :: s in covering <==>
                  s in summaries[..i] && CoversCycle(s, time, band) && CoverageRank(s.coverage) == rank
      invariant RecordIds(covering) == RankedIds(summaries[..i], time, band, rank)
    {
      TakeNext(summaries, i);
      assert summaries[..i + 1][..i] == summaries[..i];
      var s := summaries[i];
      if CoversCycle(s, time, band) && CoverageRank(s.coverage) == rank {
        InsertedSummary(covering, s);
        covering := InsertSummary(covering, s);
      }
      i := i + 1;
    }
    assert summaries[..|summaries|] == summaries;
  }

  function RecordIds(summaries: seq<CensusSummary>): seq<string> {
    if summaries == [] then [] else [summaries[0].recordId] + RecordIds(summaries[1..])
  }

  ghost predicate IdsInOrder(ids: seq<string>) {
    forall i, j :: 0 <= i < j < |ids| ==> !IdLess(ids[j], ids[i])
  }

  /** The ids of the best summaries are in order, and name exactly the covering summaries of that rank. */
  lemma {:induction false} RankedIdsInOrder(summaries: seq<CensusSummary>, time: Instant, band: Band, rank: nat)
    ensures IdsInOrder(RankedIds(summaries, time, band, rank))
    ensures forall id :: id in RankedIds(summaries, time, band, rank) <==>
              exists s :: s in summaries && CoversCycle(s, time, band) && CoverageRank(s.coverage) == rank
                && s.recordId == id
  {
    assert IdsInOrder([]);
    hide CoversCycle, CoverageRank, IdsInOrder;
    if summaries == [] {
    } else {
      var n := |summaries| - 1;
      RankedIdsInOrder(summaries[..n], time, band, rank);
      InsertIdInOrder(RankedIds(summaries[..n], time, band, rank), summaries[n].recordId);
      assert forall s :: s in summaries <==> s in summaries[..n] || s == summaries[n];
      hide InsertId;
    }
  }

  lemma {:induction false} InsertIdInOrder(ids: seq<string>, id: string)
    requires IdsInOrder(ids)
    ensures IdsInOrder(InsertId(ids, id))
    ensures forall x :: x in InsertId(ids, id) <==> x in ids || x == id
  {
    hide IdLess;
    var longer := InsertId(ids, id);
    if ids != [] {
      IdsAreOrdered(id, ids[0]);
      if IdLess(id, ids[0]) {
        forall j | 0 <= j < |ids|
          ensures !IdLess(ids[j], id)
        {
          IdOrderIsTransitive(id, ids[0], ids[j]);
        }
        assert longer == [id] + ids;
      } else {
        InsertIdInOrder(ids[1..], id);
        var rest := InsertId(ids[1..], id);
        assert longer == [ids[0]] + rest;
        assert forall x :: x in ids <==> x == ids[0] || x in ids[1..];
        forall j | 0 <= j < |rest|
          ensures !IdLess(rest[j], ids[0])
        {
          assert rest[j] in rest;
          if rest[j] != id {
            var k :| 0 <= k < |ids[1..]| && ids[1..][k] == rest[j];
            assert ids[k + 1] == rest[j];
          }
        }
      }
    }
  }

  method CoverageFor(time: Instant, band: Band, summaries: seq<CensusSummary>)
    returns (coverage: Coverage, ids: seq<string>)
    ensures BestCoverage(coverage, time, band, summaries)
    ensures ids == RankedIds(summaries, time, band, CoverageRank(coverage))
  {
    var best := BestRank(time, band, summaries);
    if best.None? {
      NoRankedIds(summaries, time, band, 0);
      return Unknown(NoCensusCoverage), [];
    }
    var covering := Covering(time, band, summaries, best.value);
    hide CoversCycle, CoverageRank, RecordIds;
    var s :| s in summaries && CoversCycle(s, time, band) && CoverageRank(s.coverage) == best.value;
    assert s in covering;
    assert covering[0] in covering;
    coverage, ids := covering[0].coverage, RecordIds(covering);
  }

  lemma {:induction false} NoRankedIds(summaries: seq<CensusSummary>, time: Instant, band: Band, rank: nat)
    requires forall s :: s in summaries ==> !CoversCycle(s, time, band)
    ensures RankedIds(summaries, time, band, rank) == []
  {
    if summaries != [] {
      hide CoversCycle;
      NoRankedIds(summaries[..|summaries| - 1], time, band, rank);
      assert summaries[|summaries| - 1] in summaries;
    }
  }

  function InsertSummary(sorted: seq<CensusSummary>, s: CensusSummary): seq<CensusSummary> {
    if sorted == [] || IdLess(s.recordId, sorted[0].recordId) then [s] + sorted
    else [sorted[0]] + InsertSummary(sorted[1..], s)
  }

  lemma {:induction false} InsertedSummary(sorted: seq<CensusSummary>, s: CensusSummary)
    ensures forall x :: x in InsertSummary(sorted, s) <==> x in sorted || x == s
    ensures RecordIds(InsertSummary(sorted, s)) == InsertId(RecordIds(sorted), s.recordId)
  {
    if sorted != [] && !IdLess(s.recordId, sorted[0].recordId) {
      hide IdLess;
      InsertedSummary(sorted[1..], s);
      forall x
        ensures x in sorted <==> x == sorted[0] || x in sorted[1..]
      {
      }
    }
  }

  // ----- what was heard -----

  predicate HearsOn(callsign: string, c: Classified, s: Stratum, slotId: string) {
    && c.disposition == Usable && c.assignment.slotId == Some(slotId)
    && PathKeyOf(callsign, c.observation).Some? && PathKeyOf(callsign, c.observation).value.stratum == s
  }

  /** The remote stations of the usable observations of a stratum in a slot. */
  function Heard(callsign: string, cs: seq<Classified>, s: Stratum, slotId: string): set<string> {
    set c | c in cs && HearsOn(callsign, c, s, slotId) :: PathKeyOf(callsign, c.observation).value.path
  }

  ghost predicate HeardAsCollected(callsign: string, cs: seq<Classified>,
                                   heardOn: map<(Stratum, string), set<string>>) {
    forall s, id :: Heard(callsign, cs, s, id) == if (s, id) in heardOn then heardOn[(s, id)] else {}
  }

  function StrataHeard(callsign: string, cs: seq<Classified>): set<Stratum> {
    set c | c in cs && HearsSomewhere(callsign, c) :: PathKeyOf(callsign, c.observation).value.stratum
  }

  predicate HearsSomewhere(callsign: string, c: Classified) {
    c.disposition == Usable && c.assignment.slotId.Some? && PathKeyOf(callsign, c.observation).Some?
  }

  method CollectHeard(callsign: string, cs: seq<Classified>)
    returns (strata: set<Stratum>, heardOn: map<(Stratum, string), set<string>>)
    ensures strata == StrataHeard(callsign, cs)
    ensures HeardAsCollected(callsign, cs, heardOn)
  {
    strata, heardOn := {}, map[];
    var i := 0;
    while i < |cs|
      invariant 0 <= i <= |cs|
      invariant strata == StrataHeard(callsign, cs[..i])
      invariant HeardAsCollected(callsign, cs[..i], heardOn)
    {
      hide *;
      var c := cs[i];
      HeardNext(callsign, cs[..i], c, strata, heardOn);
      TakeNext(cs, i);
      var key := PathKeyOf(callsign, c.observation);
      if HearsSomewhere(callsign, c) {
        assert PathKeyOf(callsign, c.observation).Some? && c.assignment.slotId.Some?;
        var at := (key.value.stratum, c.assignment.slotId.value);
        strata := strata + {key.value.stratum};
        heardOn := heardOn[at := (if at in heardOn then heardOn[at] else {}) + {key.value.path}];
      }
      i := i + 1;
    }
    assert cs[..|cs|] == cs;
  }

  lemma HeardNext(callsign: string, cs: seq<Classified>, c: Classified, strata: set<Stratum>,
                  heardOn: map<(Stratum, string), set<string>>)
    requires strata == StrataHeard(callsign, cs) && HeardAsCollected(callsign, cs, heardOn)
    ensures var key := PathKeyOf(callsign, c.observation);
            if HearsSomewhere(callsign, c) && key.Some? && c.assignment.slotId.Some? then
              var at := (key.value.stratum, c.assignment.slotId.value);
              && strata + {key.value.stratum} == StrataHeard(callsign, cs + [c])
              && HeardAsCollected(callsign, cs + [c],
                                  heardOn[at := (if at in heardOn then heardOn[at] else {}) + {key.value.path}])
            else strata == StrataHeard(callsign, cs + [c]) && HeardAsCollected(callsign, cs + [c], heardOn)
  {
    hide PathKeyOf;
    forall x
      ensures x in cs + [c] <==> x in cs || x == c
    {
    }
    forall s, id
      ensures Heard(callsign, cs + [c], s, id) ==
                Heard(callsign, cs, s, id) +
                (if HearsOn(callsign, c, s, id) then {PathKeyOf(callsign, c.observation).value.path} else {})
    {
    }
    assert StrataHeard(callsign, cs + [c]) ==
           StrataHeard(callsign, cs) +
           (if HearsSomewhere(callsign, c) then {PathKeyOf(callsign, c.observation).value.stratum} else {});
    hide Heard, StrataHeard;
  }

  predicate Observes(callsign: string, c: Classified, slotId: string) {
    c.disposition == Usable && c.assignment.slotId == Some(slotId) && PathIdentity(callsign, c.observation).Some?
  }

  function ObservedDirections(callsign: string, cs: seq<Classified>, slotId: string): set<Direction> {
    set c | c in cs && Observes(callsign, c, slotId) :: PathIdentity(callsign, c.observation).value.0
  }

  /** The direction of a cycle: declared, or the only one observed. */
  function DirectionOf(declared: map<string, Direction>, observed: set<Direction>, slotId: string): Option<Direction> {
    if slotId in declared then Some(declared[slotId])
    else if observed == {Transmit} then Some(Transmit)
    else if observed == {Receive} then Some(Receive)
    else None
  }

  // ----- the timeline -----

  function LabelSide(left: string, right: string, actual: Option<string>): Option<Side> {
    if actual == Some(left) then Some(Left) else if actual == Some(right) then Some(Right) else None
  }

  /** Block and side of the first slot in the blocks with this id. */
  function TimelineOf(ctx: Context, blocks: seq<Block>, slotId: string): Option<(nat, Option<Side>)> {
    if blocks == [] then None
    else if blocks[0].first.slotId == slotId then
      Some((blocks[0].index, LabelSide(ctx.left, ctx.right, blocks[0].first.actualLabel)))
    else if blocks[0].second.Some? && blocks[0].second.value.slotId == slotId then
      Some((blocks[0].index, LabelSide(ctx.left, ctx.right, blocks[0].second.value.actualLabel)))
    else TimelineOf(ctx, blocks[1..], slotId)
  }

  // ----- rates -----

  function Rate(heard: nat, active: nat): Option<real> {
    if active > 0 then Some(heard as real / active as real) else None
  }

  lemma RatesAreFractions(heard: nat, active: nat)
    requires heard <= active
    ensures Rate(heard, active).Some? <==> active > 0
    ensures Rate(heard, active).Some? ==> 0.0 <= Rate(heard, active).value <= 1.0
  {
    if active > 0 {
      var q := heard as real / active as real;
      assert q * active as real == heard as real;
      assert q <= 1.0;
    }
  }

  datatype Evidence = Evidence(
    ctx: Context, cs: seq<Classified>, declared: map<string, Direction>, census: map<CensusKey, Roster>,
                               summaries: seq<CensusSummary>)

  function RosterAt(census: map<CensusKey, Roster>, key: CensusKey): Roster {
    if key in census then census[key] else map[]
  }

  /** The cycles a stratum is rated in. */
  predicate Rated(e: Evidence, s: Stratum, slot: AlignedSlot) {
    && slot.band == s.band
    && DirectionOf(e.declared, ObservedDirections(e.ctx.callsign, e.cs, slot.slotId), slot.slotId) == Some(s.direction)
  }

  function RatedSlots(e: Evidence, s: Stratum, slots: seq<AlignedSlot>): seq<(Stratum, AlignedSlot)> {
    if slots == [] then []
    else
      RatedSlots(e, s, slots[..|slots| - 1]) +
      (if Rated(e, s, slots[|slots| - 1]) then [(s, slots[|slots| - 1])] else [])
  }

  function RatedCycles(e: Evidence, strata: seq<Stratum>, slots: seq<AlignedSlot>): seq<(Stratum, AlignedSlot)> {
    if strata == [] then []
    else RatedCycles(e, strata[..|strata| - 1], slots) + RatedSlots(e, strata[|strata| - 1], slots)
  }

  predicate IsWspr(mode: string) {
    AsciiUpper(mode) == "WSPR"
  }

  /** What the row of a rated cycle says. */
  ghost predicate RateFor(r: CycleRate, e: Evidence, s: Stratum, slot: AlignedSlot, cycles: seq<CensusCycle>) {
    var seat := TimelineOf(e.ctx, e.ctx.blocks, slot.slotId);
    && r.stratum == s && r.slotId == slot.slotId && r.startsAt == slot.startsAt
    && r.label_ == (if slot.actualLabel.Some? then slot.actualLabel.value else slot.plannedLabel)
    && r.block == (if seat.Some? then Some(seat.value.0) else None)
    && r.side == (if seat.Some? then seat.value.1 else None)
    && (r.censusIndex.Some? <==> !r.coverage.Unknown?)
    && CoverageRules(r.coverage, e, s, slot)
    && Counted(r, cycles)
    && (r.censusIndex.Some? ==>
          var cycle := cycles[r.censusIndex.value];
          && s.direction == Transmit && IsWspr(s.mode)
          && cycle.key == CensusKey(slot.startsAt - NOMINAL_START_OFFSET, slot.band)
          && r.heard == Heard(e.ctx.callsign, e.cs, s, slot.slotId) * cycle.reporters.Keys)
  }

  /** The census index is in range, and the heard reporters are among the active ones. */
  ghost predicate Counted(r: CycleRate, cycles: seq<CensusCycle>) {
    && (r.censusIndex.Some? ==>
          && r.censusIndex.value < |cycles|
          && r.activeCount == |cycles[r.censusIndex.value].reporters|
          && r.heard <= cycles[r.censusIndex.value].reporters.Keys)
    && (r.censusIndex.None? ==> r.activeCount == 0 && r.heard == {})
    && r.heardCount == |r.heard| <= r.activeCount
    && r.rate == Rate(r.heardCount, r.activeCount)
  }

  /** One cycle per census key, each with that key's reporters and coverage. */
  ghost predicate Indexed(cycles: seq<CensusCycle>, indices: map<CensusKey, nat>, e: Evidence) {
    && (forall k :: k in indices ==> indices[k] < |cycles| && cycles[indices[k]].key == k)
    && (forall i :: 0 <= i < |cycles| ==>
          && cycles[i].key in indices && indices[cycles[i].key] == i
          && cycles[i].reporters == RosterAt(e.census, cycles[i].key)
          && BestCoverage(cycles[i].coverage, cycles[i].key.time, cycles[i].key.band, e.summaries)
          && cycles[i].summaryIds ==
               RankedIds(e.summaries, cycles[i].key.time, cycles[i].key.band, CoverageRank(cycles[i].coverage)))
  }

  lemma NoMoreKeysThanRoster(heard: set<string>, roster: Roster)
    requires heard <= roster.Keys
    ensures |heard| <= |roster|
  {
    SubsetSize(heard, roster.Keys);
    assert |roster.Keys| == |roster|;
  }

  lemma SubsetSize<T>(a: set<T>, b: set<T>)
    requires a <= b
    ensures |a| <= |b|
  {
    assert b == a + (b - a);
  }

  lemma MoreCyclesKeepRate(r: CycleRate, e: Evidence, s: Stratum, slot: AlignedSlot, cycles: seq<CensusCycle>,
                           c: CensusCycle)
    requires RateFor(r, e, s, slot, cycles)
    ensures RateFor(r, e, s, slot, cycles + [c])
  {
    hide TimelineOf, Heard;
  }

  /** Finds or adds the census cycle of a key. */
  method CycleIndex(key: CensusKey, coverage: Coverage, reporters: Roster, ids: seq<string>,
                    cycles: seq<CensusCycle>, indices: map<CensusKey, nat>, ghost e: Evidence)
    returns (index: nat, cycles': seq<CensusCycle>, indices': map<CensusKey, nat>)
    requires Indexed(cycles, indices, e) && reporters == RosterAt(e.census, key)
    requires BestCoverage(coverage, key.time, key.band, e.summaries)
    requires ids == RankedIds(e.summaries, key.time, key.band, CoverageRank(coverage))
    ensures Indexed(cycles', indices', e)
    ensures index < |cycles'| && cycles'[index].key == key
    ensures cycles' == cycles || cycles' == cycles + [CensusCycle(key, coverage, reporters, ids)]
    ensures cycles' == cycles <==> key in indices
  {
    hide RosterAt, BestCoverage, RankedIds, CoverageRank;
    if key in indices {
      return indices[key], cycles, indices;
    }
    index := |cycles|;
    cycles' := cycles + [CensusCycle(key, coverage, reporters, ids)];
    indices' := indices[key := index];
  }

  /** The coverage a cycle's row must have. */
  ghost predicate CoverageRules(coverage: Coverage, e: Evidence, s: Stratum, slot: AlignedSlot) {
    && (s.direction == Receive ==> coverage == Unknown(UnsupportedReceiveDirection))
    && (s.direction == Transmit && !IsWspr(s.mode) ==> coverage == Unknown(UnsupportedSignalMode))
    && (s.direction == Transmit && IsWspr(s.mode) ==>
          BestCoverage(coverage, slot.startsAt - NOMINAL_START_OFFSET, slot.band, e.summaries))
  }

  method CensusFor(e: Evidence, s: Stratum, slot: AlignedSlot, cycles: seq<CensusCycle>, indices: map<CensusKey, nat>)
    returns (coverage: Coverage, index: Option<nat>, active: Roster, cycles': seq<CensusCycle>,
             indices': map<CensusKey, nat>)
    requires Indexed(cycles, indices, e)
    ensures Indexed(cycles', indices', e) && (cycles' == cycles || exists c :: cycles' == cycles + [c])
    ensures CoverageRules(coverage, e, s, slot)
    ensures index.Some? <==> !coverage.Unknown?
    ensures index.None? ==> active == map[]
    ensures index.Some? ==>
              && index.value < |cycles'| && active == cycles'[index.value].reporters
              && s.direction == Transmit && IsWspr(s.mode)
              && cycles'[index.value].key == CensusKey(slot.startsAt - NOMINAL_START_OFFSET, slot.band)
  {
    hide IsWspr, RosterAt, BestCoverage, RankedIds, CoverageRank;
    if s.direction == Receive {
      return Unknown(UnsupportedReceiveDirection), None, map[], cycles, indices;
    }
    if !IsWspr(s.mode) {
      return Unknown(UnsupportedSignalMode), None, map[], cycles, indices;
    }
    var key := CensusKey(slot.startsAt - NOMINAL_START_OFFSET, slot.band);
    var ids;
    coverage, ids := CoverageFor(key.time, slot.band, e.summaries);
    if coverage.Unknown? {
      return coverage, None, map[], cycles, indices;
    }
    var at;
    at, cycles', indices' := CycleIndex(key, coverage, RosterAt(e.census, key), ids, cycles, indices, e);
    index, active := Some(at), RosterAt(e.census, key);
  }

  method RateCycle(e: Evidence, s: Stratum, slot: AlignedSlot, heardOn: map<(Stratum, string), set<string>>,
                   cycles: seq<CensusCycle>, indices: map<CensusKey, nat>)
    returns (r: CycleRate, cycles': seq<CensusCycle>, indices': map<CensusKey, nat>)
    requires Indexed(cycles, indices, e) && HeardAsCollected(e.ctx.callsign, e.cs, heardOn)
    ensures Indexed(cycles', indices', e) && RateFor(r, e, s, slot, cycles')
    ensures cycles' == cycles || exists c :: cycles' == cycles + [c]
  {
    hide Heard, TimelineOf, IsWspr, BestCoverage, Indexed, HeardAsCollected, Rate;
    var coverage, index, active;
    coverage, index, active, cycles', indices' := CensusFor(e, s, slot, cycles, indices);
    var observed := if (s, slot.slotId) in heardOn then heardOn[(s, slot.slotId)] else {};
    HeardAt(e.ctx.callsign, e.cs, heardOn, s, slot.slotId);
    var heard := observed * active.Keys;
    NoMoreKeysThanRoster(heard, active);
    var seat := TimelineOf(e.ctx, e.ctx.blocks, slot.slotId);
    r := CycleRate(
      s, if seat.Some? then Some(seat.value.0) else None, if seat.Some? then seat.value.1 else None, slot.slotId,
      if slot.actualLabel.Some? then slot.actualLabel.value else slot.plannedLabel, slot.startsAt,
      index, coverage, |active|, |heard|, Rate(|heard|, |active|), heard);
  }

  lemma HeardAt(callsign: string, cs: seq<Classified>, heardOn: map<(Stratum, string), set<string>>, s: Stratum,
                id: string)
    requires HeardAsCollected(callsign, cs, heardOn)
    ensures Heard(callsign, cs, s, id) == if (s, id) in heardOn then heardOn[(s, id)] else {}
  {
  }

  ghost predicate RatesMatch(rates: seq<CycleRate>, of: seq<(Stratum, AlignedSlot)>, e: Evidence,
                             cycles: seq<CensusCycle>) {
    && |rates| == |of|
    && forall i :: 0 <= i < |rates| ==> RateFor(rates[i], e, of[i].0, of[i].1, cycles)
  }

  lemma RatesExtend(rates: seq<CycleRate>, of: seq<(Stratum, AlignedSlot)>, e: Evidence, cycles: seq<CensusCycle>,
                    r: CycleRate, s: Stratum, slot: AlignedSlot, cycles': seq<CensusCycle>)
    requires RatesMatch(rates, of, e, cycles) && RateFor(r, e, s, slot, cycles')
    requires cycles' == cycles || exists c :: cycles' == cycles + [c]
    ensures RatesMatch(rates + [r], of + [(s, slot)], e, cycles')
  {
    hide RateFor;
    if cycles' != cycles {
      var c :| cycles' == cycles + [c];
      forall i | 0 <= i < |rates|
        ensures RateFor(rates[i], e, of[i].0, of[i].1, cycles')
      {
        MoreCyclesKeepRate(rates[i], e, of[i].0, of[i].1, cycles, c);
      }
    }
  }

  lemma NoCycles(e: Evidence)
    ensures Indexed([], map[], e)
  {
  }

  /** Every stratum in every cycle that carries its band and direction gets one row, in order. */
  method RateCycles(e: Evidence, strata: seq<Stratum>, slots: seq<AlignedSlot>,
                    heardOn: map<(Stratum, string), set<string>>)
    returns (cycles: seq<CensusCycle>, rates: seq<CycleRate>)
    requires HeardAsCollected(e.ctx.callsign, e.cs, heardOn)
    ensures RatesMatch(rates, RatedCycles(e, strata, slots), e, cycles)
    ensures exists indices :: Indexed(cycles, indices, e)
  {
    cycles, rates := [], [];
    var indices: map<CensusKey, nat> := map[];
    hide RateFor, Rated, HeardAsCollected, Indexed;
    assert Indexed(cycles, indices, e) by { NoCycles(e); }
    var i := 0;
    while i < |strata|
      invariant 0 <= i <= |strata|
      invariant Indexed(cycles, indices, e)
      invariant RatesMatch(rates, RatedCycles(e, strata[..i], slots), e, cycles)
    {
      var s := strata[i];
      var j := 0;
      assert slots[..0] == [];
      assert RatedCycles(e, strata[..i], slots) + RatedSlots(e, s, slots[..0]) == RatedCycles(e, strata[..i], slots);
      while j < |slots|
        invariant 0 <= j <= |slots|
        invariant Indexed(cycles, indices, e)
        invariant RatesMatch(rates, RatedCycles(e, strata[..i], slots) + RatedSlots(e, s, slots[..j]), e, cycles)
      {
        assert slots[..j + 1][..j] == slots[..j];
        ghost var of := RatedCycles(e, strata[..i], slots) + RatedSlots(e, s, slots[..j]);
        if Rated(e, s, slots[j]) {
          var r, cycles', indices' := RateCycle(e, s, slots[j], heardOn, cycles, indices);
          RatesExtend(rates, of, e, cycles, r, s, slots[j], cycles');
          assert RatedCycles(e, strata[..i], slots) + RatedSlots(e, s, slots[..j + 1]) == of + [(s, slots[j])];
          rates, cycles, indices := rates + [r], cycles', indices';
        } else {
          assert RatedSlots(e, s, slots[..j + 1]) == RatedSlots(e, s, slots[..j]);
        }
        j := j + 1;
      }
      assert slots[..|slots|] == slots && strata[..i + 1][..i] == strata[..i];
      i := i + 1;
    }
    assert strata[..|strata|] == strata;
  }
}
