/** The comparison as it runs: loops over observations, groups and rows, proved against the analysis. */
module ComparisonRun {
  import opened Prelude
  import opened Records
  import opened Alignment
  import opened Attribution
  import opened ComparisonBlocks
  import opened Bags
  import opened Comparison
  import opened ComparisonConservation

  // ----- resolving one side -----

  function InsertById(s: seq<Observation>, o: Observation): (r: seq<Observation>)
    ensures |r| == |s| + 1
  {
    if s != [] && IdLess(s[0].observationId, o.observationId) then [s[0]] + InsertById(s[1..], o) else [o] + s
  }

  /** A stable sort by observation id. */
  function SortById(s: seq<Observation>): (r: seq<Observation>)
    ensures |r| == |s|
  {
    if s == [] then [] else InsertById(SortById(s[1..]), s[0])
  }

  lemma {:induction false} InsertKeepsMembers(s: seq<Observation>, o: Observation, x: Observation)
    ensures x in InsertById(s, o) <==> x in s || x == o
  {
    if s != [] && IdLess(s[0].observationId, o.observationId) {
      hide IdLess;
      InsertKeepsMembers(s[1..], o, x);
      assert x in s <==> x == s[0] || x in s[1..];
    }
  }

  lemma {:induction false} SortKeepsMembers(s: seq<Observation>, x: Observation)
    ensures x in SortById(s) <==> x in s
  {
    if s != [] {
      hide InsertById;
      SortKeepsMembers(s[1..], x);
      InsertKeepsMembers(SortById(s[1..]), s[0], x);
      assert x in s <==> x == s[0] || x in s[1..];
    }
  }

  /** The head of the sorted group is its least observation. */
  lemma {:induction false} SortedHeadIsLeast(s: seq<Observation>)
    requires s != []
    ensures SortById(s)[0] == Least(s)
  {
    if |s| > 1 {
      SortedHeadIsLeast(s[1..]);
    }
  }

  method ResolveGroup(observations: seq<Observation>) returns (r: Resolved)
    ensures r == Resolve(observations)
  {
    if observations == [] {
      return Resolved(None, false, 0, false);
    }
    hide ExactDuplicates, IdLess, HasFiniteSnr, Least, InsertById, SortById;
    var sorted := SortById(observations);
    var first := sorted[0];
    SortedHeadIsLeast(observations);
    var alike := true;
    var i := 1;
    while i < |sorted| && alike
      invariant 1 <= i <= |sorted|
      invariant alike ==> forall j :: 1 <= j < i ==> ExactDuplicates(first, sorted[j])
      invariant !alike ==> exists o :: o in sorted && !ExactDuplicates(first, o)
    {
      alike := ExactDuplicates(first, sorted[i]);
      i := i + 1;
    }
    assert ExactDuplicates(first, first);
    forall o
      ensures o in sorted <==> o in observations
    {
      SortKeepsMembers(observations, o);
    }
    if !alike {
      return Resolved(None, false, 0, true);
    }
    var count := |sorted| - 1;
    if HasFiniteSnr(first) {
      return Resolved(Some(first), false, count, false);
    }
    return Resolved(None, true, count, false);
  }

  // ----- grouping -----

  method IndexBlocks(blocks: seq<Block>) returns (blockBySlot: map<string, nat>)
    ensures forall id :: BlockOf(blocks, id) == if id in blockBySlot then Some(blockBySlot[id]) else None
  {
    blockBySlot := map[];
    var i := 0;
    while i < |blocks|
      invariant 0 <= i <= |blocks|
      invariant forall id :: BlockOf(blocks[..i], id) == if id in blockBySlot then Some(blockBySlot[id]) else None
    {
      blockBySlot := blockBySlot[blocks[i].first.slotId := i];
      if blocks[i].second.Some? {
        blockBySlot := blockBySlot[blocks[i].second.value.slotId := i];
      }
      assert blocks[..i + 1][..i] == blocks[..i];
      i := i + 1;
    }
    assert blocks[..|blocks|] == blocks;
  }

  function AddTo(groups: map<GroupKey, Group>, key: GroupKey, side: Side, o: Observation): map<GroupKey, Group> {
    var g := if key in groups then groups[key] else Group([], []);
    groups[key := if side == Left then g.(left := g.left + [o]) else g.(right := g.right + [o])]
  }

  function Count(counts: map<Stratum, nat>, s: Stratum): nat {
    if s in counts then counts[s] else 0
  }

  /** The exclusions counted for each stratum. */
  ghost predicate CountsExclusions(callsign: string, cs: seq<Classified>, excluded: map<Stratum, nat>) {
    && excluded.Keys == ExclusionStrata(callsign, cs)
    && forall s :: Count(excluded, s) == CountIf(cs, ExcludedFrom(callsign, s))
  }

  method TakeSeat(ctx: Context, blockBySlot: map<string, nat>, c: Classified) returns (seat: Option<(nat, Side)>)
    requires forall id :: BlockOf(ctx.blocks, id) == if id in blockBySlot then Some(blockBySlot[id]) else None
    ensures seat == Seat(ctx, c)
  {
    hide BlockOf, SideOf;
    if c.assignment.slotId.None? || c.disposition != Usable || c.assignment.slotId.value !in blockBySlot {
      return None;
    }
    var index := blockBySlot[c.assignment.slotId.value];
    assert BlockOf(ctx.blocks, c.assignment.slotId.value) == Some(index);
    if ctx.blocks[index].eligibility != Eligible {
      return None;
    }
    var side := SideOf(ctx, c.assignment.slotLabel);
    seat := if side.None? then None else Some((index, side.value));
  }

  /** The counters after one more observation. */
  function Counted(ctx: Context, before: Counts, c: Classified): Counts {
    var seated, mode := Seat(ctx, c).Some?, ModeOf(c.observation);
    Counts(before.excluded + One(c.disposition.Excluded?),
           before.ambiguousPath + One(seated && PathIdentity(ctx.callsign, c.observation).None?),
           before.missingMode + One(seated && mode.None? && ModeMissing(c.observation)),
           before.malformedMode + One(seated && mode.None? && !ModeMissing(c.observation)))
  }

  method CountObservation(ctx: Context, before: Counts, c: Classified, seat: Option<(nat, Side)>)
    returns (counts: Counts)
    requires seat == Seat(ctx, c)
    ensures counts == Counted(ctx, before, c)
  {
    hide Seat, PathIdentity, ModeOf, ModeMissing;
    counts := before;
    if c.disposition.Excluded? {
      counts := counts.(excluded := counts.excluded + 1);
    }
    if seat.None? {
      return;
    }
    if PathIdentity(ctx.callsign, c.observation).None? {
      counts := counts.(ambiguousPath := counts.ambiguousPath + 1);
    }
    if ModeOf(c.observation).None? {
      if ModeMissing(c.observation) {
        counts := counts.(missingMode := counts.missingMode + 1);
      } else {
        counts := counts.(malformedMode := counts.malformedMode + 1);
      }
    }
  }

  method GroupObservations(ctx: Context, cs: seq<Classified>)
    returns (groups: map<GroupKey, Group>, excluded: map<Stratum, nat>, counts: Counts)
    ensures groups == Groups(ctx, cs)
    ensures CountsExclusions(ctx.callsign, cs, excluded)
    ensures counts == CountAll(ctx, cs)
  {
    var blockBySlot := IndexBlocks(ctx.blocks);
    groups, excluded, counts := map[], map[], Counts(0, 0, 0, 0);
    NothingGrouped(ctx);
    hide Groups, CountsExclusions, CountAll, Counted, Seat, PathKeyOf, BlockOf, AddTo, Count, ExcludedFrom;
    var i := 0;
    while i < |cs|
      invariant 0 <= i <= |cs|
      invariant groups == Groups(ctx, cs[..i])
      invariant CountsExclusions(ctx.callsign, cs[..i], excluded)
      invariant counts == CountAll(ctx, cs[..i])
    {
      var c := cs[i];
      GroupNext(ctx, cs[..i], c, excluded);
      TakeNext(cs, i);
      i := i + 1;
      var seat := TakeSeat(ctx, blockBySlot, c);
      counts := CountObservation(ctx, counts, c, seat);
      var key := PathKeyOf(ctx.callsign, c.observation);
      if c.disposition.Excluded? && key.Some? {
        var s := key.value.stratum;
        excluded := excluded[s := Count(excluded, s) + 1];
      }
      if seat.Some? && key.Some? {
        groups := AddTo(groups, GroupKey(key.value, seat.value.0), seat.value.1, c.observation);
      }
    }
    assert cs[..|cs|] == cs;
  }

  lemma NothingGrouped(ctx: Context)
    ensures Groups(ctx, []) == map[] && CountsExclusions(ctx.callsign, [], map[])
              && CountAll(ctx, []) == Counts(0, 0, 0, 0)
  {
  }

  /** What one more observation changes. */
  lemma GroupNext(ctx: Context, cs: seq<Classified>, c: Classified, excluded: map<Stratum, nat>)
    ensures Groups(ctx, cs + [c]) ==
              match Placement(ctx, c)
              case None => Groups(ctx, cs)
              case Some((key, side)) => AddTo(Groups(ctx, cs), key, side, c.observation)
    ensures CountAll(ctx, cs + [c]) == Counted(ctx, CountAll(ctx, cs), c)
    ensures CountsExclusions(ctx.callsign, cs, excluded) ==>
              var key := PathKeyOf(ctx.callsign, c.observation);
              CountsExclusions(ctx.callsign, cs + [c],
                if c.disposition.Excluded? && key.Some? then
                  excluded[key.value.stratum := Count(excluded, key.value.stratum) + 1]
                else excluded)
  {
    hide PathIdentity, ModeOf, ModeMissing, PathKeyOf, Placement, Seat;
    assert (cs + [c])[..|cs|] == cs;
    GroupsNext(ctx, cs, c);
    if CountsExclusions(ctx.callsign, cs, excluded) {
      ExclusionsNext(ctx.callsign, cs, c, excluded);
    }
  }

  lemma GroupsNext(ctx: Context, cs: seq<Classified>, c: Classified)
    ensures Groups(ctx, cs + [c]) ==
              match Placement(ctx, c)
              case None => Groups(ctx, cs)
              case Some((key, side)) => AddTo(Groups(ctx, cs), key, side, c.observation)
  {
    hide Placement, KeysOf, Placed;
    var p := Placement(ctx, c);
    KeysNext(ctx, cs, c);
    forall k, side
      ensures Placed(ctx, cs + [c], k, side) ==
                if p == Some((k, side)) then Placed(ctx, cs, k, side) + [c.observation] else Placed(ctx, cs, k, side)
    {
      PlacedNext(ctx, cs, c, k, side);
    }
    if p.Some? && p.value.0 !in KeysOf(ctx, cs) {
      NothingPlaced(ctx, cs, p.value.0, Left);
      NothingPlaced(ctx, cs, p.value.0, Right);
    }
    var after := Groups(ctx, cs + [c]);
    if p.None? {
      assert after == Groups(ctx, cs);
    } else {
      assert after == AddTo(Groups(ctx, cs), p.value.0, p.value.1, c.observation);
    }
  }

  lemma {:induction false} PlacedNext(ctx: Context, cs: seq<Classified>, c: Classified, k: GroupKey, side: Side)
    ensures Placed(ctx, cs + [c], k, side) ==
              if Placement(ctx, c) == Some((k, side)) then Placed(ctx, cs, k, side) + [c.observation]
              else Placed(ctx, cs, k, side)
  {
    hide Placement;
    assert (cs + [c])[..|cs|] == cs;
  }

  lemma KeysNext(ctx: Context, cs: seq<Classified>, c: Classified)
    ensures var p := Placement(ctx, c);
            KeysOf(ctx, cs + [c]) == KeysOf(ctx, cs) + (if p.Some? then {p.value.0} else {})
  {
    hide Placement;
    forall x
      ensures x in cs + [c] <==> x in cs || x == c
    {
    }
  }

  lemma {:induction false} NothingPlaced(ctx: Context, cs: seq<Classified>, key: GroupKey, side: Side)
    requires key !in KeysOf(ctx, cs)
    ensures Placed(ctx, cs, key, side) == []
  {
    if cs != [] {
      hide Placement;
      assert cs[|cs| - 1] in cs;
      NothingPlaced(ctx, cs[..|cs| - 1], key, side);
    }
  }

  lemma ExclusionsNext(callsign: string, cs: seq<Classified>, c: Classified, excluded: map<Stratum, nat>)
    requires CountsExclusions(callsign, cs, excluded)
    ensures var key := PathKeyOf(callsign, c.observation);
            CountsExclusions(callsign, cs + [c],
              if c.disposition.Excluded? && key.Some? then
                excluded[key.value.stratum := Count(excluded, key.value.stratum) + 1]
              else excluded)
  {
    hide PathKeyOf;
    assert (cs + [c])[..|cs|] == cs;
    var key := PathKeyOf(callsign, c.observation);
    forall x
      ensures x in cs + [c] <==> x in cs || x == c
    {
    }
    assert ExclusionStrata(callsign, cs + [c]) ==
           ExclusionStrata(callsign, cs) + (if c.disposition.Excluded? && key.Some? then {key.value.stratum} else {});
  }

  // ----- pairing -----

  /** The counters one group adds, branch by branch. */
  method TallyGroup(left: Resolved, right: Resolved, ghost g: Group) returns (t: Tally)
    requires left == Resolve(g.left) && right == Resolve(g.right)
    ensures t == Contribution(g)
  {
    t := NO_TALLY.(duplicates := left.duplicates + right.duplicates,
                   conflicts := One(left.conflict) + One(right.conflict));
    if left.missingSnr {
      t := t.(missingLeft := 1);
    }
    if right.missingSnr {
      t := t.(missingRight := 1);
    }
    if left.finite.Some? {
      t := t.(leftFinite := 1);
      if right.finite.None? && !right.conflict {
        t := t.(unmatchedLeft := 1);
      }
    }
    if right.finite.Some? {
      t := t.(rightFinite := 1);
      if left.finite.None? && !left.conflict {
        t := t.(unmatchedRight := 1);
      }
    }
    if left.finite.Some? && right.finite.Some? {
      t := t.(paired := 1);
    }
    hide Resolve;
  }

  datatype StratumSoFar = StratumSoFar(tally: Tally, blocks: set<nat>, orders: set<(nat, Order)>, deltas: seq<real>)

  const NEW_STRATUM: StratumSoFar := StratumSoFar(NO_TALLY, {}, {}, [])

  function OrdersIn(rows: map<GroupKey, PairedRow>, keys: set<GroupKey>): set<(nat, Order)>
    requires keys <= rows.Keys
  {
    set k | k in keys :: (k.block, rows[k].order)
  }

  /** What the accumulators of a stratum hold once the given groups are done. */
  ghost predicate Holds(acc: StratumSoFar, groups: map<GroupKey, Group>, rows: map<GroupKey, PairedRow>,
                        done: set<GroupKey>, s: Stratum)
    requires done <= groups.Keys
  {
    && acc.tally == Total(groups, OnStratum(done, s))
    && acc.blocks == BlocksIn(OnStratum(done * rows.Keys, s))
    && acc.orders == OrdersIn(rows, OnStratum(done * rows.Keys, s))
    && SameBag(acc.deltas, Listing(Deltas(rows), OnStratum(done * rows.Keys, s)))
  }

  ghost predicate StrataSoFar(strata: map<Stratum, StratumSoFar>, groups: map<GroupKey, Group>,
                              rows: map<GroupKey, PairedRow>,
                              done: set<GroupKey>)
    requires done <= groups.Keys
  {
    && strata.Keys == StrataOf(done)
    && forall s :: s in strata ==> Holds(strata[s], groups, rows, done, s)
  }

  ghost predicate OverlapsSoFar(overlaps: map<PathKey, Tally>, groups: map<GroupKey, Group>, done: set<GroupKey>)
    requires done <= groups.Keys
  {
    && overlaps.Keys == PathsOf(done)
    && forall p :: p in overlaps ==> overlaps[p] == Total(groups, OnPath(done, p))
  }

  ghost predicate RowsSoFar(rows: map<GroupKey, PairedRow>, all: map<GroupKey, PairedRow>, done: set<GroupKey>) {
    rows.Keys == done * all.Keys && forall k :: k in rows ==> rows[k] == all[k]
  }

  function WithRow(acc: StratumSoFar, block: nat, row: Option<PairedRow>): StratumSoFar {
    match row
    case None => acc
    case Some(r) => acc.(blocks := acc.blocks + {block}, orders := acc.orders + {(block, r.order)},
                         deltas := acc.deltas + [r.delta])
  }

  /** One pass over the groups fills every accumulator. */
  method PairGroups(blocks: seq<Block>, groups: map<GroupKey, Group>)
    returns (rows: map<GroupKey, PairedRow>, overlaps: map<PathKey, Tally>, strata: map<Stratum, StratumSoFar>,
             total: Tally)
    ensures rows == RowsOf(blocks, groups)
    ensures overlaps == Overlaps(groups)
    ensures StrataSoFar(strata, groups, rows, groups.Keys)
    ensures total == Total(groups, groups.Keys)
  {
    rows, overlaps, strata, total := map[], map[], map[], NO_TALLY;
    var remaining := groups.Keys;
    ghost var done: set<GroupKey> := {};
    ghost var all := RowsOf(blocks, groups);
    RowsComeFromGroups(blocks, groups);
    hide Total, Contribution, Resolve, RowOf, RowsOf, Overlaps, OverlapsSoFar, StrataSoFar, RowsSoFar, Add, WithRow,
         NumSeconds;
    NothingYet(groups, all);
    while remaining != {}
      invariant done !! remaining && done + remaining == groups.Keys
      invariant RowsSoFar(rows, all, done)
      invariant OverlapsSoFar(overlaps, groups, done)
      invariant StrataSoFar(strata, groups, all, done)
      invariant total == Total(groups, done)
      decreases |remaining|
    {
      var k :| k in remaining;
      remaining := remaining - {k};
      var left := ResolveGroup(groups[k].left);
      var right := ResolveGroup(groups[k].right);
      var t := TallyGroup(left, right, groups[k]);
      var row := MakeRow(OrderAt(blocks, k.block), left.finite, right.finite);
      RowIsRowOf(OrderAt(blocks, k.block), groups[k]);
      RowsAt(blocks, groups, k);
      TotalNext(groups, done, k);
      OverlapsNext(overlaps, groups, done, k);
      StrataNext(strata, groups, all, done, k, row);
      RowsNext(rows, all, done, k, row);
      total := Add(total, t);
      overlaps := overlaps[k.on := Add(if k.on in overlaps then overlaps[k.on] else NO_TALLY, t)];
      var acc := if k.on.stratum in strata then strata[k.on.stratum] else NEW_STRATUM;
      strata := strata[k.on.stratum := WithRow(acc.(tally := Add(acc.tally, t)), k.block, row)];
      if row.Some? {
        rows := rows[k := row.value];
      }
      done := done + {k};
    }
    assert done == groups.Keys;
    AllDone(blocks, groups, rows, overlaps);
  }

  function MakeRow(order: Option<Order>, left: Option<Observation>, right: Option<Observation>): Option<PairedRow>
    requires left.Some? ==> HasFiniteSnr(left.value)
    requires right.Some? ==> HasFiniteSnr(right.value)
  {
    if left.None? || right.None? || order.None? then None
    else
      Some(PairedRow(order.value, left.value, right.value,
                     Abs(NumSeconds(right.value.timestamp - left.value.timestamp)), Snr(right.value) - Snr(left.value)))
  }

  lemma RowIsRowOf(order: Option<Order>, g: Group)
    ensures MakeRow(order, Resolve(g.left).finite, Resolve(g.right).finite) == RowOf(order, g)
  {
    hide Resolve, NumSeconds;
  }

  lemma RowsAt(blocks: seq<Block>, groups: map<GroupKey, Group>, k: GroupKey)
    requires k in groups
    ensures var row := RowOf(OrderAt(blocks, k.block), groups[k]);
            && (k in RowsOf(blocks, groups) <==> row.Some?)
            && (row.Some? ==> RowsOf(blocks, groups)[k] == row.value)
  {
    hide RowOf, OrderAt;
  }

  lemma {:induction false} NothingYet(groups: map<GroupKey, Group>, all: map<GroupKey, PairedRow>)
    ensures RowsSoFar(map[], all, {}) && OverlapsSoFar(map[], groups, {}) && StrataSoFar(map[], groups, all, {})
    ensures Total(groups, {}) == NO_TALLY
  {
    assert {} * all.Keys == {};
  }

  lemma {:induction false} TotalNext(groups: map<GroupKey, Group>, done: set<GroupKey>, k: GroupKey)
    requires k in groups && k !in done && done <= groups.Keys
    ensures Total(groups, done + {k}) == Add(Total(groups, done), Contribution(groups[k]))
  {
    hide Total, Add, Contribution;
    TotalLast(groups, done + {k}, k);
    assert (done + {k}) - {k} == done;
  }

  lemma OverlapsNext(overlaps: map<PathKey, Tally>, groups: map<GroupKey, Group>, done: set<GroupKey>, k: GroupKey)
    requires k in groups && k !in done && done <= groups.Keys
    requires OverlapsSoFar(overlaps, groups, done)
    ensures OverlapsSoFar(
              overlaps[k.on := Add(if k.on in overlaps then overlaps[k.on] else NO_TALLY, Contribution(groups[k]))],
              groups, done + {k})
  {
    hide Total, Add, Contribution;
    assert PathsOf(done + {k}) == PathsOf(done) + {k.on};
    assert OnPath(done + {k}, k.on) == OnPath(done, k.on) + {k};
    TotalNext(groups, OnPath(done, k.on), k);
    if k.on !in overlaps {
      assert OnPath(done, k.on) == {};
      NothingYet(groups, map[]);
    }
    forall p | p in overlaps && p != k.on
      ensures OnPath(done + {k}, p) == OnPath(done, p)
    {
    }
    hide PathsOf, OnPath;
  }

  lemma RowsNext(rows: map<GroupKey, PairedRow>, all: map<GroupKey, PairedRow>, done: set<GroupKey>, k: GroupKey,
                 row: Option<PairedRow>)
    requires RowsSoFar(rows, all, done) && k !in done
    requires (k in all <==> row.Some?) && (row.Some? ==> all[k] == row.value)
    ensures RowsSoFar(if row.Some? then rows[k := row.value] else rows, all, done + {k})
  {
  }

  lemma StratumNext(acc: StratumSoFar, groups: map<GroupKey, Group>, rows: map<GroupKey, PairedRow>,
                    done: set<GroupKey>, k: GroupKey, row: Option<PairedRow>)
    requires k in groups && k !in done && done <= groups.Keys
    requires (k in rows <==> row.Some?) && (row.Some? ==> rows[k] == row.value)
    requires Holds(acc, groups, rows, done, k.on.stratum)
    ensures Holds(WithRow(acc.(tally := Add(acc.tally, Contribution(groups[k]))), k.block, row),
                  groups, rows, done + {k}, k.on.stratum)
  {
    hide Total, Add, Contribution, Listing, SameBag, Deltas;
    var s := k.on.stratum;
    TotalNext(groups, OnStratum(done, s), k);
    assert OnStratum(done + {k}, s) == OnStratum(done, s) + {k};
    var before, after := OnStratum(done * rows.Keys, s), OnStratum((done + {k}) * rows.Keys, s);
    if row.None? {
      assert after == before;
    } else {
      assert after == before + {k};
      assert BlocksIn(after) == BlocksIn(before) + {k.block};
      assert OrdersIn(rows, after) == OrdersIn(rows, before) + {(k.block, rows[k].order)};
      DeltaAt(rows, k);
      ListOneMore(acc.deltas, Deltas(rows), before, k);
    }
  }

  lemma DeltaAt(rows: map<GroupKey, PairedRow>, k: GroupKey)
    requires k in rows
    ensures Deltas(rows)[k] == rows[k].delta
  {
  }

  lemma StrataNext(strata: map<Stratum, StratumSoFar>, groups: map<GroupKey, Group>, rows: map<GroupKey, PairedRow>,
                   done: set<GroupKey>, k: GroupKey, row: Option<PairedRow>)
    requires k in groups && k !in done && done <= groups.Keys
    requires (k in rows <==> row.Some?) && (row.Some? ==> rows[k] == row.value)
    requires StrataSoFar(strata, groups, rows, done)
    ensures var acc := if k.on.stratum in strata then strata[k.on.stratum] else NEW_STRATUM;
            var next := WithRow(acc.(tally := Add(acc.tally, Contribution(groups[k]))), k.block, row);
            StrataSoFar(strata[k.on.stratum := next], groups, rows, done + {k})
  {
    hide WithRow, Add, Contribution, Holds;
    var acc := if k.on.stratum in strata then strata[k.on.stratum] else NEW_STRATUM;
    if k.on.stratum !in strata {
      NewStratumHolds(groups, rows, done, k.on.stratum);
    }
    StratumNext(acc, groups, rows, done, k, row);
    assert StrataOf(done + {k}) == StrataOf(done) + {k.on.stratum};
    forall s | s in strata && s != k.on.stratum
      ensures Holds(strata[s], groups, rows, done + {k}, s)
    {
      OtherStratumHolds(strata[s], groups, rows, done, k, s);
    }
    hide StrataOf;
  }

  lemma NewStratumHolds(groups: map<GroupKey, Group>, rows: map<GroupKey, PairedRow>, done: set<GroupKey>, s: Stratum)
    requires done <= groups.Keys && s !in StrataOf(done)
    ensures Holds(NEW_STRATUM, groups, rows, done, s)
  {
    assert OnStratum(done, s) == {} && OnStratum(done * rows.Keys, s) == {};
  }

  lemma OtherStratumHolds(acc: StratumSoFar, groups: map<GroupKey, Group>, rows: map<GroupKey, PairedRow>,
                          done: set<GroupKey>, k: GroupKey, s: Stratum)
    requires k in groups && done <= groups.Keys && k.on.stratum != s
    requires Holds(acc, groups, rows, done, s)
    ensures Holds(acc, groups, rows, done + {k}, s)
  {
    assert OnStratum(done + {k}, s) == OnStratum(done, s);
    assert OnStratum((done + {k}) * rows.Keys, s) == OnStratum(done * rows.Keys, s);
  }

  lemma AllDone(blocks: seq<Block>, groups: map<GroupKey, Group>, rows: map<GroupKey, PairedRow>,
                overlaps: map<PathKey, Tally>)
    requires RowsSoFar(rows, RowsOf(blocks, groups), groups.Keys) && OverlapsSoFar(overlaps, groups, groups.Keys)
    ensures rows == RowsOf(blocks, groups) && overlaps == Overlaps(groups)
  {
    hide RowsOf, Total;
    RowsComeFromGroups(blocks, groups);
    assert groups.Keys * RowsOf(blocks, groups).Keys == RowsOf(blocks, groups).Keys;
  }

  // ----- path summaries -----

  ghost predicate DeltasByPath(lists: map<PathKey, seq<real>>, rows: map<GroupKey, PairedRow>, done: set<GroupKey>)
    requires done <= rows.Keys
  {
    && lists.Keys == PathsOf(done)
    && forall p :: p in lists ==> lists[p] != [] && SameBag(lists[p], Listing(Deltas(rows), OnPath(done, p)))
  }

  method BuildPathSummaries(rows: map<GroupKey, PairedRow>) returns (paths: map<PathKey, PathSummary>)
    ensures paths == Paths(rows)
  {
    var lists: map<PathKey, seq<real>> := map[];
    var remaining := rows.Keys;
    ghost var done: set<GroupKey> := {};
    assert DeltasByPath(map[], rows, {});
    assert DeltasByPath(lists, rows, done);
    hide SameBag, Listing, Deltas, OnPath, SummarizeList, Paths, DeltasByPath;
    while remaining != {}
      invariant remaining <= rows.Keys && done == rows.Keys - remaining
      invariant DeltasByPath(lists, rows, done)
      decreases |remaining|
    {
      var k :| k in remaining;
      remaining := remaining - {k};
      DeltasNext(lists, rows, done, k);
      lists := lists[k.on := (if k.on in lists then lists[k.on] else []) + [rows[k].delta]];
      done := done + {k};
    }
    assert done == rows.Keys;
    assert forall p :: p in lists ==> lists[p] != [];
    paths := map p | p in lists :: SummarizeList(lists[p]);
    PathsFinish(lists, rows);
  }

  function SummarizeList(list: seq<real>): PathSummary
    requires list != []
  {
    PathSummary(|list|, Median(Sort(list)))
  }

  lemma PathsFinish(lists: map<PathKey, seq<real>>, rows: map<GroupKey, PairedRow>)
    requires DeltasByPath(lists, rows, rows.Keys)
    ensures (map p | p in lists :: SummarizeList(lists[p])) == Paths(rows)
  {
    hide SameBag, Listing, Deltas, Sort, Median;
    forall p | p in lists
      ensures SummarizeList(lists[p]) == SummarizePath(rows, p)
    {
      SortOfSameBag(lists[p], Listing(Deltas(rows), OnPath(rows.Keys, p)));
      assert |Sort(lists[p])| == |Sort(Listing(Deltas(rows), OnPath(rows.Keys, p)))|;
    }
    hide SummarizePath, SummarizeList;
  }

  lemma PathsNext(done: set<GroupKey>, k: GroupKey)
    ensures PathsOf(done + {k}) == PathsOf(done) + {k.on}
    ensures OnPath(done + {k}, k.on) == OnPath(done, k.on) + {k}
    ensures forall p :: p != k.on ==> OnPath(done + {k}, p) == OnPath(done, p)
  {
    forall p | p != k.on
      ensures OnPath(done + {k}, p) == OnPath(done, p)
    {
    }
  }

  lemma DeltasNext(lists: map<PathKey, seq<real>>, rows: map<GroupKey, PairedRow>, done: set<GroupKey>, k: GroupKey)
    requires done <= rows.Keys && k in rows && k !in done && DeltasByPath(lists, rows, done)
    ensures DeltasByPath(lists[k.on := (if k.on in lists then lists[k.on] else []) + [rows[k].delta]], rows, done + {k})
  {
    hide Listing, SameBag, Deltas;
    var before := OnPath(done, k.on);
    PathsNext(done, k);
    var list := if k.on in lists then lists[k.on] else [];
    if k.on !in lists {
      assert before == {};
      ListNothing(Deltas(rows));
    }
    hide PathsOf, OnPath;
    DeltaAt(rows, k);
    ListOneMore(list, Deltas(rows), before, k);
  }

  // ----- strata -----

  function MediansOn(paths: map<PathKey, PathSummary>, s: Stratum): map<PathKey, PathSummary> {
    map p | p in paths && p.stratum == s :: paths[p]
  }

  /** The medians of a map of summaries, listed. */
  method ListMedians(paths: map<PathKey, PathSummary>) returns (list: seq<real>)
    ensures SameBag(list, Listing(Medians(paths), paths.Keys))
  {
    list := [];
    var remaining := paths.Keys;
    ghost var done: set<PathKey> := {};
    ListNothing(Medians(paths));
    hide Listing, SameBag, Medians;
    while remaining != {}
      invariant done !! remaining && done + remaining == paths.Keys
      invariant SameBag(list, Listing(Medians(paths), done))
      decreases |remaining|
    {
      var p :| p in remaining;
      remaining := remaining - {p};
      MedianAt(paths, p);
      ListOneMore(list, Medians(paths), done, p);
      list := list + [paths[p].medianDelta];
      done := done + {p};
    }
    assert done == paths.Keys;
  }

  lemma MedianAt(paths: map<PathKey, PathSummary>, p: PathKey)
    requires p in paths
    ensures Medians(paths)[p] == paths[p].medianDelta
  {
  }

  lemma MediansOnPaths(paths: map<PathKey, PathSummary>, s: Stratum)
    ensures MediansOn(paths, s).Keys == PathsIn(paths, s)
    ensures Listing(Medians(MediansOn(paths, s)), PathsIn(paths, s)) == Listing(Medians(paths), PathsIn(paths, s))
  {
    ListingAgrees(Medians(MediansOn(paths, s)), Medians(paths), PathsIn(paths, s));
  }

  function WithOrder(orders: set<(nat, Order)>, order: Order): set<(nat, Order)> {
    set x | x in orders && x.1 == order
  }

  function BlocksWith(orders: set<(nat, Order)>, order: Order): set<nat> {
    set x | x in orders && x.1 == order :: x.0
  }

  lemma {:induction false} OneBlockOneOrder(orders: set<(nat, Order)>, order: Order)
    ensures |WithOrder(orders, order)| == |BlocksWith(orders, order)|
  {
    if orders == {} {
      assert WithOrder(orders, order) == {} && BlocksWith(orders, order) == {};
    } else {
      var y := Pick(orders);
      OneBlockOneOrder(orders - {y}, order);
      OrderWithout(orders, order, y);
      hide WithOrder, BlocksWith;
    }
  }

  lemma OrderWithout(orders: set<(nat, Order)>, order: Order, y: (nat, Order))
    requires y in orders
    ensures |WithOrder(orders, order)| == |WithOrder(orders - {y}, order)| + One(y.1 == order)
    ensures |BlocksWith(orders, order)| == |BlocksWith(orders - {y}, order)| + One(y.1 == order)
  {
    if y.1 == order {
      assert WithOrder(orders - {y}, order) == WithOrder(orders, order) - {y};
      assert BlocksWith(orders - {y}, order) == BlocksWith(orders, order) - {y.0};
    } else {
      assert WithOrder(orders - {y}, order) == WithOrder(orders, order);
      assert BlocksWith(orders - {y}, order) == BlocksWith(orders, order);
    }
  }

  lemma OrdersCount(rows: map<GroupKey, PairedRow>, keys: set<GroupKey>, order: Order)
    requires keys <= rows.Keys
    ensures |WithOrder(OrdersIn(rows, keys), order)| == |BlocksIn(Ordered(rows, keys, order))|
  {
    var orders := OrdersIn(rows, keys);
    OneBlockOneOrder(orders, order);
    var firsts := BlocksWith(orders, order);
    forall b
      ensures b in firsts <==> b in BlocksIn(Ordered(rows, keys, order))
    {
      if b in BlocksIn(Ordered(rows, keys, order)) {
        assert (b, order) in orders;
      }
    }
    assert firsts == BlocksIn(Ordered(rows, keys, order));
  }

  method FinishStratum(acc: StratumSoFar, paths: map<PathKey, PathSummary>, excluded: nat, s: Stratum,
                       ghost groups: map<GroupKey, Group>, ghost rows: map<GroupKey, PairedRow>)
    returns (summary: StratumSummary)
    requires rows.Keys <= groups.Keys && Holds(acc, groups, rows, groups.Keys, s)
    ensures summary == SummarizeStratum(groups, rows, paths, excluded, s)
  {
    var deltas := Sort(acc.deltas);
    var list := ListMedians(MediansOn(paths, s));
    var medians := Sort(list);
    summary := StratumSummary(
      |deltas|, |medians|, |acc.blocks|, |WithOrder(acc.orders, LeftThenRight)|, |WithOrder(acc.orders, RightThenLeft)|,
      acc.tally, excluded,
      if deltas == [] then None else Some(deltas[0]),
      if medians == [] then None else Some(Median(medians)),
      if deltas == [] then None else Some(deltas[|deltas| - 1]));
    hide Sort, Listing, Median, Times, Total, Deltas, Medians, MediansOn, PathsIn, WithOrder, OrdersIn, BlocksIn,
         Ordered, OnStratum;
    assert groups.Keys * rows.Keys == rows.Keys;
    SortOfSameBag(acc.deltas, Listing(Deltas(rows), OnStratum(rows.Keys, s)));
    MediansOnPaths(paths, s);
    SortOfSameBag(list, Listing(Medians(paths), PathsIn(paths, s)));
    OrdersCount(rows, OnStratum(rows.Keys, s), LeftThenRight);
    OrdersCount(rows, OnStratum(rows.Keys, s), RightThenLeft);
  }

  ghost predicate Summarized(summaries: map<Stratum, StratumSummary>, groups: map<GroupKey, Group>,
                             rows: map<GroupKey, PairedRow>,
                             paths: map<PathKey, PathSummary>, excluded: map<Stratum, nat>)
  {
    forall s :: s in summaries ==> summaries[s] == SummarizeStratum(groups, rows, paths, Count(excluded, s), s)
  }

  lemma SummarizedNext(summaries: map<Stratum, StratumSummary>, groups: map<GroupKey, Group>,
                       rows: map<GroupKey, PairedRow>,
                       paths: map<PathKey, PathSummary>, excluded: map<Stratum, nat>, s: Stratum)
    requires Summarized(summaries, groups, rows, paths, excluded)
    ensures Summarized(summaries[s := SummarizeStratum(groups, rows, paths, Count(excluded, s), s)], groups, rows,
                       paths, excluded)
  {
    hide SummarizeStratum, Count;
  }

  lemma AccumulatorHolds(strata: map<Stratum, StratumSoFar>, groups: map<GroupKey, Group>,
                         rows: map<GroupKey, PairedRow>, s: Stratum)
    requires StrataSoFar(strata, groups, rows, groups.Keys)
    ensures Holds(if s in strata then strata[s] else NEW_STRATUM, groups, rows, groups.Keys, s)
  {
    hide Holds;
    if s !in strata {
      NewStratumHolds(groups, rows, groups.Keys, s);
    }
  }

  method SummarizeAt(s: Stratum, strata: map<Stratum, StratumSoFar>, paths: map<PathKey, PathSummary>,
                     excluded: map<Stratum, nat>,
                     ghost groups: map<GroupKey, Group>, ghost rows: map<GroupKey, PairedRow>)
    returns (summary: StratumSummary)
    requires rows.Keys <= groups.Keys && StrataSoFar(strata, groups, rows, groups.Keys)
    ensures summary == SummarizeStratum(groups, rows, paths, Count(excluded, s), s)
  {
    AccumulatorHolds(strata, groups, rows, s);
    var acc := if s in strata then strata[s] else NEW_STRATUM;
    summary := FinishStratum(acc, paths, Count(excluded, s), s, groups, rows);
  }

  /** The accumulated strata, and those that only have exclusions. */
  method BuildStrata(all: set<Stratum>, strata: map<Stratum, StratumSoFar>, paths: map<PathKey, PathSummary>,
                     excluded: map<Stratum, nat>,
                     ghost groups: map<GroupKey, Group>, ghost rows: map<GroupKey, PairedRow>)
    returns (summaries: map<Stratum, StratumSummary>)
    requires rows.Keys <= groups.Keys && StrataSoFar(strata, groups, rows, groups.Keys)
    ensures summaries.Keys == all
    ensures Summarized(summaries, groups, rows, paths, excluded)
  {
    summaries := map[];
    assert Summarized(summaries, groups, rows, paths, excluded);
    hide *;
    var remaining := all;
    while remaining != {}
      invariant remaining <= all && summaries.Keys == all - remaining
      invariant Summarized(summaries, groups, rows, paths, excluded)
      decreases |remaining|
    {
      var s :| s in remaining;
      remaining := remaining - {s};
      var summary := SummarizeAt(s, strata, paths, excluded, groups, rows);
      SummarizedNext(summaries, groups, rows, paths, excluded, s);
      summaries := summaries[s := summary];
    }
  }

  // ----- block counters -----

  /** Counting the blocks, the eligible ones and the two orders; the rest are invalid. */
  method TallyBlocks(blocks: seq<Block>) returns (counts: BlockCounts)
    ensures counts == CountBlocks(blocks)
  {
    var eligible: nat, leftThenRight: nat, rightThenLeft: nat := 0, 0, 0;
    for i := 0 to |blocks|
      invariant eligible <= i
      invariant BlockCounts(i, eligible, i - eligible, leftThenRight, rightThenLeft) == CountBlocks(blocks[..i])
    {
      assert blocks[..i + 1][..i] == blocks[..i];
      if blocks[i].eligibility == Eligible {
        eligible := eligible + 1;
      }
      if blocks[i].order == Some(LeftThenRight) {
        leftThenRight := leftThenRight + 1;
      } else if blocks[i].order == Some(RightThenLeft) {
        rightThenLeft := rightThenLeft + 1;
      }
    }
    assert blocks[..|blocks|] == blocks;
    counts := BlockCounts(|blocks|, eligible, |blocks| - eligible, leftThenRight, rightThenLeft);
  }

  // ----- the whole comparison -----

  datatype Outcome = Unavailable(reason: Unavailability, labels: seq<string>) | Available(analysis: Analysis)

  datatype Unavailability = NotApplicable | UnsupportedComparisonShape

  function Distinct(labels: seq<string>): (distinct: seq<string>) {
    if labels == [] then []
    else
      var before := Distinct(labels[..|labels| - 1]);
      if labels[|labels| - 1] in before then before else before + [labels[|labels| - 1]]
  }

  lemma {:induction false} DistinctKeepsLabels(labels: seq<string>)
    ensures forall x :: x in Distinct(labels) <==> x in labels
    ensures forall i, j :: 0 <= i < j < |Distinct(labels)| ==> Distinct(labels)[i] != Distinct(labels)[j]
  {
    if labels != [] {
      DistinctKeepsLabels(labels[..|labels| - 1]);
      forall x
        ensures x in labels <==> x in labels[..|labels| - 1] || x == labels[|labels| - 1]
      {
      }
    }
  }

  method ScheduledLabels(slotLabels: seq<string>) returns (labels: seq<string>)
    ensures labels == Distinct(slotLabels)
  {
    labels := [];
    var i := 0;
    while i < |slotLabels|
      invariant 0 <= i <= |slotLabels|
      invariant labels == Distinct(slotLabels[..i])
    {
      assert slotLabels[..i + 1][..i] == slotLabels[..i];
      if slotLabels[i] !in labels {
        labels := labels + [slotLabels[i]];
      }
      i := i + 1;
    }
    assert slotLabels[..|slotLabels|] == slotLabels;
  }

  /** What the comparison of a bundle is. */
  ghost function Compare(callsign: string, singleAntenna: bool, slotLabels: seq<string>, slots: seq<AlignedSlot>,
                         cs: seq<Classified>)
    : Outcome
  {
    var labels := Distinct(slotLabels);
    if singleAntenna then Unavailable(NotApplicable, labels)
    else if |labels| != 2 then Unavailable(UnsupportedComparisonShape, labels)
    else Available(Analyze(ContextOf(callsign, slots, labels[0], labels[1]), cs))
  }

  method AnalyzePairedComparison(callsign: string, singleAntenna: bool, slotLabels: seq<string>,
                                 slots: seq<AlignedSlot>, cs: seq<Classified>)
    returns (result: Outcome)
    ensures result == Compare(callsign, singleAntenna, slotLabels, slots, cs)
  {
    var labels := ScheduledLabels(slotLabels);
    if singleAntenna {
      return Unavailable(NotApplicable, labels);
    }
    if |labels| != 2 {
      return Unavailable(UnsupportedComparisonShape, labels);
    }
    var blocks := BuildBlocks(InSequence(slots), labels[0], labels[1]);
    var blockCounts := TallyBlocks(blocks);
    var ctx := Context(callsign, blocks, labels[0], labels[1]);
    var groups, excluded, counts := GroupObservations(ctx, cs);
    var rows, overlaps, strata, total := PairGroups(blocks, groups);
    var paths := BuildPathSummaries(rows);
    RowsComeFromGroups(blocks, groups);
    var summaries := BuildStrata(strata.Keys + excluded.Keys, strata, paths, excluded, groups, rows);
    assert strata.Keys == StrataOf(groups.Keys);
    StrataComplete(ctx, cs, groups, rows, summaries, excluded);
    hide Groups, RowsOf, Total, Overlaps, Paths, Strata, CountAll, StrataSoFar, SummarizeStratum, BlocksOf, InSequence,
         AvailabilityOf;
    return Available(Analysis(AvailabilityOf(blocks, rows), blocks, rows, overlaps, paths, summaries, total, counts,
                              blockCounts, |RemotePaths(rows)|));
  }

  lemma StrataComplete(ctx: Context, cs: seq<Classified>, groups: map<GroupKey, Group>, rows: map<GroupKey, PairedRow>,
                       summaries: map<Stratum, StratumSummary>, excluded: map<Stratum, nat>)
    requires CountsExclusions(ctx.callsign, cs, excluded)
    requires summaries.Keys == StrataOf(groups.Keys) + excluded.Keys
    requires Summarized(summaries, groups, rows, Paths(rows), excluded)
    ensures summaries == Strata(ctx, cs, groups, rows)
  {
    hide SummarizeStratum, Paths, CountIf, ExclusionStrata, StrataOf, Count;
  }
}
