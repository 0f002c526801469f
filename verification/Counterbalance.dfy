/** The counterbalance check: complete blocks, and equal average positions by cross multiplication. */
module Counterbalance {
  import opened Prelude
  import opened RbnSuppression

  datatype Diagnostic = VariantFrequencyMismatch(index: nat) | UnbalancedBlock(block: string) | UnbalancedOrder

  /** The two things whose average position must not differ between levels. */
  datatype Factor = Antenna | Variant

  function Level(slot: AllocatedSlot, factor: Factor): string {
    match factor
    case Antenna => slot.antenna
    case Variant => slot.variant
  }

  function Levels(slots: seq<AllocatedSlot>, factor: Factor): set<string> {
    set s | s in slots :: Level(s, factor)
  }

  /** The sum of the positions of the slots at the given level. */
  function PositionSum(slots: seq<AllocatedSlot>, factor: Factor, v: string): nat {
    if slots == [] then 0
    else
      var n := |slots| - 1;
      PositionSum(slots[..n], factor, v) + (if Level(slots[n], factor) == v then slots[n].position else 0)
  }

  function Count(slots: seq<AllocatedSlot>, factor: Factor, v: string): nat {
    if slots == [] then 0
    else
      var n := |slots| - 1;
      Count(slots[..n], factor, v) + (if Level(slots[n], factor) == v then 1 else 0)
  }

  function InBlock(slots: seq<AllocatedSlot>, block: string): (own: seq<AllocatedSlot>)
    ensures forall s :: s in own <==> s in slots && s.block == block
  {
    if slots == [] then []
    else
      var n := |slots| - 1;
      InBlock(slots[..n], block) + (if slots[n].block == block then [slots[n]] else [])
  }

  function Pairs(slots: seq<AllocatedSlot>): set<(string, string)> {
    set s | s in slots :: (s.antenna, s.variant)
  }

  function Positions(slots: seq<AllocatedSlot>): set<nat> {
    set s | s in slots :: s.position
  }

  function ExpectedPairs(slots: seq<AllocatedSlot>): nat {
    |Levels(slots, Antenna)| * |Levels(slots, Variant)|
  }

  /** The block holds each antenna and variant pair once, at positions of its own. */
  predicate IsComplete(own: seq<AllocatedSlot>, expectedPairs: nat) {
    |own| == expectedPairs && |Pairs(own)| == expectedPairs && |Positions(own)| == |own|
  }

  // ----- the cross-multiplied average test -----

  function BalancedAverage(values: seq<(nat, nat)>): bool {
    values == [] ||
    forall v :: v in values ==>
      values[0].1 != 0 && v.1 != 0 && v.0 * values[0].1 == values[0].0 * v.1
  }

  /** The exact average of a sum over a count. */
  function Average(x: (nat, nat)): real
    requires x.1 != 0
  {
    x.0 as real / x.1 as real
  }

  lemma CrossMultiplied(x: (nat, nat), y: (nat, nat))
    requires x.1 != 0 && y.1 != 0
    ensures x.0 * y.1 == y.0 * x.1 <==> Average(x) == Average(y)
  {
    var a, b, m, n := Average(x), Average(y), x.1 as real, y.1 as real;
    assert a * m == x.0 as real && b * n == y.0 as real;
    assert (x.0 * y.1) as real == (a * m) * n;
    assert (y.0 * x.1) as real == (b * n) * m;
    assert (a * m) * n - (b * n) * m == (a - b) * (m * n);
    assert m * n > 0.0;
  }

  /** Comparing every value with the first accepts exactly when all averages are equal rationals. */
  lemma BalancedIffAveragesEqual(values: seq<(nat, nat)>)
    ensures BalancedAverage(values) <==>
              && (forall v :: v in values ==> v.1 != 0)
              && (forall v, w :: v in values && w in values ==> Average(v) == Average(w))
  {
    hide Average;
    if values != [] && forall v :: v in values ==> v.1 != 0 {
      assert values[0] in values;
      forall v | v in values
        ensures v.0 * values[0].1 == values[0].0 * v.1 <==> Average(v) == Average(values[0])
      {
        CrossMultiplied(v, values[0]);
      }
    }
  }

  lemma {:induction false} CountPositive(slots: seq<AllocatedSlot>, factor: Factor, v: string)
    ensures Count(slots, factor, v) > 0 <==> v in Levels(slots, factor)
  {
    if slots != [] {
      var n := |slots| - 1;
      CountPositive(slots[..n], factor, v);
      assert slots == slots[..n] + [slots[n]];
    }
  }

  function AveragePosition(slots: seq<AllocatedSlot>, factor: Factor, v: string): real
    requires v in Levels(slots, factor)
  {
    CountPositive(slots, factor, v);
    Average((PositionSum(slots, factor, v), Count(slots, factor, v)))
  }

  /** Every level of the factor has the same average position. */
  ghost predicate AveragesEqual(slots: seq<AllocatedSlot>, factor: Factor) {
    forall v, w :: v in Levels(slots, factor) && w in Levels(slots, factor) ==>
      AveragePosition(slots, factor, v) == AveragePosition(slots, factor, w)
  }

  /** The map a loop accumulates holds every level's position sum and count. */
  ghost predicate Tallied(slots: seq<AllocatedSlot>, factor: Factor, tally: map<string, (nat, nat)>) {
    && tally.Keys == Levels(slots, factor)
    && forall v :: v in tally ==> tally[v] == (PositionSum(slots, factor, v), Count(slots, factor, v))
  }

  function Tally(tally: map<string, (nat, nat)>, v: string, position: nat): map<string, (nat, nat)> {
    var sofar := if v in tally then tally[v] else (0, 0);
    tally[v := (sofar.0 + position, sofar.1 + 1)]
  }

  lemma {:induction false} AbsentKey(slots: seq<AllocatedSlot>, factor: Factor, v: string)
    requires v !in Levels(slots, factor)
    ensures PositionSum(slots, factor, v) == 0 && Count(slots, factor, v) == 0
  {
    if slots != [] {
      var n := |slots| - 1;
      assert slots[n] in slots;
      assert forall s :: s in slots[..n] ==> s in slots;
      AbsentKey(slots[..n], factor, v);
    }
  }

  lemma LevelsAppend(slots: seq<AllocatedSlot>, s: AllocatedSlot, factor: Factor)
    ensures Levels(slots + [s], factor) == Levels(slots, factor) + {Level(s, factor)}
  {
    assert (slots + [s])[|slots|] == s;
    assert forall x :: x in slots ==> x in slots + [s];
  }

  lemma {:induction false} SumAppend(slots: seq<AllocatedSlot>, s: AllocatedSlot, factor: Factor, v: string)
    ensures PositionSum(slots + [s], factor, v) ==
              PositionSum(slots, factor, v) + (if Level(s, factor) == v then s.position else 0)
    ensures Count(slots + [s], factor, v) == Count(slots, factor, v) + (if Level(s, factor) == v then 1 else 0)
  {
    assert (slots + [s])[..|slots|] == slots;
  }

  lemma TallyNext(slots: seq<AllocatedSlot>, s: AllocatedSlot, factor: Factor, tally: map<string, (nat, nat)>)
    requires Tallied(slots, factor, tally)
    ensures Tallied(slots + [s], factor, Tally(tally, Level(s, factor), s.position))
  {
    hide Levels, PositionSum, Count, Level;
    LevelsAppend(slots, s, factor);
    if Level(s, factor) !in tally {
      AbsentKey(slots, factor, Level(s, factor));
    }
    forall v
      ensures PositionSum(slots + [s], factor, v) ==
                PositionSum(slots, factor, v) + (if Level(s, factor) == v then s.position else 0)
      ensures Count(slots + [s], factor, v) == Count(slots, factor, v) + (if Level(s, factor) == v then 1 else 0)
    {
      SumAppend(slots, s, factor, v);
    }
  }

  method CheckBalance(slots: seq<AllocatedSlot>, ghost factor: Factor, tally: map<string, (nat, nat)>)
    returns (balanced: bool)
    requires Tallied(slots, factor, tally)
    ensures balanced <==> AveragesEqual(slots, factor)
  {
    var values: seq<(nat, nat)> := [];
    var left := tally.Keys;
    while left != {}
      invariant left <= tally.Keys
      invariant forall x :: x in values <==> exists v :: v in tally && v !in left && x == tally[v]
    {
      var v :| v in left;
      values := values + [tally[v]];
      left := left - {v};
    }
    balanced := BalancedAverage(values);
    BalanceOfTally(slots, factor, tally, values);
  }

  lemma BalanceOfTally(slots: seq<AllocatedSlot>, factor: Factor, tally: map<string, (nat, nat)>,
                       values: seq<(nat, nat)>)
    requires Tallied(slots, factor, tally)
    requires forall x :: x in values <==> exists v :: v in tally && x == tally[v]
    ensures BalancedAverage(values) <==> AveragesEqual(slots, factor)
  {
    hide BalancedAverage, Average, PositionSum, Count;
    BalancedIffAveragesEqual(values);
    forall v | v in tally
      ensures tally[v].1 > 0 && Average(tally[v]) == AveragePosition(slots, factor, v)
    {
      CountPositive(slots, factor, v);
    }
    forall v | v in tally
      ensures tally[v] in values
    {
    }
  }

  // ----- one frequency per variant -----

  /** The frequency most recently seen for a variant. */
  function LastFrequency(slots: seq<AllocatedSlot>, variant: string): Option<nat> {
    if slots == [] then None
    else
      var n := |slots| - 1;
      if slots[n].variant == variant then Some(slots[n].frequencyHz) else LastFrequency(slots[..n], variant)
  }

  function Mismatches(slots: seq<AllocatedSlot>): seq<Diagnostic> {
    if slots == [] then []
    else
      var n := |slots| - 1;
      var last := LastFrequency(slots[..n], slots[n].variant);
      Mismatches(slots[..n])
      + (if last.Some? && last.value != slots[n].frequencyHz then [VariantFrequencyMismatch(slots[n].index)] else [])
  }

  lemma {:induction false} LastFrequencyIsSeen(slots: seq<AllocatedSlot>, variant: string)
    ensures LastFrequency(slots, variant).None? ==> forall s :: s in slots ==> s.variant != variant
    ensures LastFrequency(slots, variant).Some? ==>
              exists s :: s in slots && s.variant == variant && s.frequencyHz == LastFrequency(slots, variant).value
  {
    if slots != [] {
      SplitLast(slots);
      LastFrequencyIsSeen(slots[..|slots| - 1], variant);
      assert slots[|slots| - 1] in slots;
    }
  }

  /** No mismatch is reported exactly when every variant keeps one frequency throughout. */
  lemma {:induction false} NoMismatchIffOneFrequency(slots: seq<AllocatedSlot>)
    ensures Mismatches(slots) == [] <==>
              forall s, t :: s in slots && t in slots && s.variant == t.variant ==> s.frequencyHz == t.frequencyHz
  {
    if slots != [] {
      hide LastFrequency;
      var before, last := slots[..|slots| - 1], slots[|slots| - 1];
      SplitLast(slots);
      assert forall s :: s in slots <==> s in before || s == last;
      NoMismatchIffOneFrequency(before);
      LastFrequencyIsSeen(before, last.variant);
    }
  }

  /** The slot before this one with its variant, if there is one, has another frequency. */
  ghost predicate ChangesFrequency(slots: seq<AllocatedSlot>, i: nat) {
    exists j :: 0 <= j < i < |slots| && slots[j].variant == slots[i].variant
      && slots[j].frequencyHz != slots[i].frequencyHz
      && forall k :: j < k < i ==> slots[k].variant != slots[i].variant
  }

  lemma {:induction false} LastFrequencyNext(slots: seq<AllocatedSlot>, variant: string)
    requires slots != []
    ensures var n := |slots| - 1;
            LastFrequency(slots, variant) == if slots[n].variant == variant then Some(slots[n].frequencyHz)
                                             else LastFrequency(slots[..n], variant)
  {
  }

  lemma {:induction false} LastFrequencyAt(slots: seq<AllocatedSlot>, variant: string, hertz: nat)
    ensures LastFrequency(slots, variant) == Some(hertz) <==>
              exists j :: 0 <= j < |slots| && slots[j].variant == variant && slots[j].frequencyHz == hertz
                && forall k :: j < k < |slots| ==> slots[k].variant != variant
  {
    if slots != [] {
      var n := |slots| - 1;
      LastFrequencyAt(slots[..n], variant, hertz);
      hide LastFrequency;
      assert LastFrequency(slots, variant) == if slots[n].variant == variant then Some(slots[n].frequencyHz)
                                              else LastFrequency(slots[..n], variant) by {
        LastFrequencyNext(slots, variant);
      }
      if j :| 0 <= j < n && slots[..n][j].variant == variant && slots[..n][j].frequencyHz == hertz
              && forall k :: j < k < n ==> slots[..n][k].variant != variant {
        assert slots[j] == slots[..n][j] && forall k :: j < k < n ==> slots[k] == slots[..n][k];
      }
    }
  }

  /** A slot is reported exactly if its variant's frequency was another one when it last came. */
  lemma {:induction false} MismatchesByPosition(slots: seq<AllocatedSlot>, d: Diagnostic)
    ensures d in Mismatches(slots) <==>
              exists i ::
                0 <= i < |slots| && d == VariantFrequencyMismatch(slots[i].index) && ChangesFrequency(slots, i)
  {
    if slots != [] {
      var n := |slots| - 1;
      MismatchesByPosition(slots[..n], d);
      forall i: nat | i < n
        ensures ChangesFrequency(slots, i) <==> ChangesFrequency(slots[..n], i)
      {
      }
      ChangesIff(slots, n);
      hide ChangesFrequency, LastFrequency;
    }
  }

  lemma ChangesIff(slots: seq<AllocatedSlot>, i: nat)
    requires i < |slots|
    ensures var last := LastFrequency(slots[..i], slots[i].variant);
            ChangesFrequency(slots, i) <==> last.Some? && last.value != slots[i].frequencyHz
  {
    var last := LastFrequency(slots[..i], slots[i].variant);
    if last.Some? {
      LastFrequencyAt(slots[..i], slots[i].variant, last.value);
    }
    hide LastFrequency;
    if ChangesFrequency(slots, i) {
      var j :| 0 <= j < i && slots[j].variant == slots[i].variant && slots[j].frequencyHz != slots[i].frequencyHz
               && forall k :: j < k < i ==> slots[k].variant != slots[i].variant;
      assert slots[..i][j] == slots[j];
      LastFrequencyAt(slots[..i], slots[i].variant, slots[j].frequencyHz);
    }
  }

  // ----- the whole check -----

  function Blocks(slots: seq<AllocatedSlot>): set<string> {
    set s | s in slots :: s.block
  }

  /** The blocks that fail the completeness check. */
  function Incomplete(slots: seq<AllocatedSlot>): set<string> {
    set b | b in Blocks(slots) && !IsComplete(InBlock(slots, b), ExpectedPairs(slots))
  }

  function BlockIds(diagnostics: seq<Diagnostic>): set<string> {
    set d | d in diagnostics && d.UnbalancedBlock? :: d.block
  }

  ghost predicate Grouped(slots: seq<AllocatedSlot>, blocks: map<string, seq<AllocatedSlot>>) {
    && blocks.Keys == Blocks(slots)
    && forall b :: b in blocks ==> blocks[b] == InBlock(slots, b)
  }

  lemma {:induction false} AbsentBlock(slots: seq<AllocatedSlot>, block: string)
    requires block !in Blocks(slots)
    ensures InBlock(slots, block) == []
  {
    if slots != [] {
      SplitLast(slots);
      assert slots[|slots| - 1] in slots;
      assert forall x :: x in slots[..|slots| - 1] ==> x in slots;
      AbsentBlock(slots[..|slots| - 1], block);
    }
  }

  lemma GroupNext(slots: seq<AllocatedSlot>, s: AllocatedSlot, blocks: map<string, seq<AllocatedSlot>>)
    requires Grouped(slots, blocks)
    ensures Grouped(slots + [s], blocks[s.block := (if s.block in blocks then blocks[s.block] else []) + [s]])
  {
    hide InBlock;
    assert Blocks(slots + [s]) == Blocks(slots) + {s.block} by { BlocksAppend(slots, s); }
    if s.block !in blocks {
      AbsentBlock(slots, s.block);
    }
    forall b
      ensures InBlock(slots + [s], b) == if s.block == b then InBlock(slots, b) + [s] else InBlock(slots, b)
    {
      InBlockAppend(slots, s, b);
    }
    hide Blocks;
  }

  lemma BlocksAppend(slots: seq<AllocatedSlot>, s: AllocatedSlot)
    ensures Blocks(slots + [s]) == Blocks(slots) + {s.block}
  {
    assert forall x :: x in slots + [s] <==> x in slots || x == s;
  }

  lemma {:induction false} InBlockAppend(slots: seq<AllocatedSlot>, s: AllocatedSlot, b: string)
    ensures InBlock(slots + [s], b) == if s.block == b then InBlock(slots, b) + [s] else InBlock(slots, b)
  {
    assert (slots + [s])[..|slots|] == slots;
  }

  lemma {:induction false} MismatchNext(slots: seq<AllocatedSlot>, s: AllocatedSlot)
    ensures Mismatches(slots + [s]) == Mismatches(slots) +
              (var last := LastFrequency(slots, s.variant);
               if last.Some? && last.value != s.frequencyHz then [VariantFrequencyMismatch(s.index)] else [])
    ensures forall v :: LastFrequency(slots + [s], v) ==
                        if s.variant == v then Some(s.frequencyHz) else LastFrequency(slots, v)
  {
    assert (slots + [s])[..|slots|] == slots;
  }

  lemma BlockIdsAppend(diagnostics: seq<Diagnostic>, b: string)
    ensures BlockIds([]) == {}
    ensures BlockIds(diagnostics + [UnbalancedBlock(b)]) == BlockIds(diagnostics) + {b}
  {
    var longer := diagnostics + [UnbalancedBlock(b)];
    assert forall d :: d in longer <==> d in diagnostics || d == UnbalancedBlock(b);
  }

  /** The schedule is counterbalanced: nothing is left for the check to report. */
  ghost predicate Counterbalanced(slots: seq<AllocatedSlot>) {
    && (forall s, t :: s in slots && t in slots && s.variant == t.variant ==> s.frequencyHz == t.frequencyHz)
    && (forall b :: b in Blocks(slots) ==> IsComplete(InBlock(slots, b), ExpectedPairs(slots)))
    && AveragesEqual(slots, Antenna) && AveragesEqual(slots, Variant)
  }

  /** The reports name blocks in the order of their ids. */
  ghost predicate InIdOrder(reports: seq<Diagnostic>) {
    && (forall d :: d in reports ==> d.UnbalancedBlock?)
    && forall i, j :: 0 <= i < j < |reports| ==> IdLess(reports[i].block, reports[j].block)
  }

  method LeastId(ids: set<string>) returns (least: string)
    requires ids != {}
    ensures least in ids && forall b :: b in ids && b != least ==> IdLess(least, b)
  {
    hide IdLess;
    least :| least in ids;
    var left := ids - {least};
    while left != {}
      invariant left <= ids && least in ids && least !in left
      invariant forall b :: b in ids && b !in left && b != least ==> IdLess(least, b)
    {
      var b :| b in left;
      left := left - {b};
      IdsAreOrdered(least, b);
      if IdLess(b, least) {
        forall c | c in ids && c !in left && c != b
          ensures IdLess(b, c)
        {
          if c != least {
            LessThroughLess(b, least, c);
          }
        }
        least := b;
      }
    }
  }

  /** Every block that is not complete is named once, in the order of the ids. */
  method CheckBlocks(slots: seq<AllocatedSlot>, blocks: map<string, seq<AllocatedSlot>>, expectedPairs: nat)
    returns (diagnostics: seq<Diagnostic>)
    requires Grouped(slots, blocks) && expectedPairs == ExpectedPairs(slots)
    ensures InIdOrder(diagnostics)
    ensures BlockIds(diagnostics) == Incomplete(slots) && |diagnostics| == |Incomplete(slots)|
  {
    diagnostics := [];
    ghost var named: set<string> := {};
    var left := blocks.Keys;
    hide IsComplete, BlockIds, InBlock, IdLess;
    BlockIdsAppend([], "");
    while left != {}
      invariant left <= blocks.Keys
      invariant InIdOrder(diagnostics)
      invariant forall d, b :: d in diagnostics && b in left ==> IdLess(d.block, b)
      invariant named == set b | b in blocks.Keys && b !in left && !IsComplete(InBlock(slots, b), expectedPairs)
      invariant BlockIds(diagnostics) == named && |diagnostics| == |named|
    {
      var b := LeastId(left);
      left := left - {b};
      if !IsComplete(blocks[b], expectedPairs) {
        BlockIdsAppend(diagnostics, b);
        diagnostics := diagnostics + [UnbalancedBlock(b)];
        named := named + {b};
      }
    }
    assert named == Incomplete(slots);
  }

  method ValidateCounterbalance(slots: seq<AllocatedSlot>) returns (diagnostics: seq<Diagnostic>)
    ensures exists blockReports: seq<Diagnostic> ::
              && InIdOrder(blockReports)
              && BlockIds(blockReports) == Incomplete(slots) && |blockReports| == |Incomplete(slots)|
              && diagnostics == Mismatches(slots) + blockReports
                 + (if AveragesEqual(slots, Antenna) && AveragesEqual(slots, Variant) then [] else [UnbalancedOrder])
    ensures diagnostics == [] <==> Counterbalanced(slots)
  {
    var frequencies: map<string, nat> := map[];
    var antennaPositions: map<string, (nat, nat)> := map[];
    var variantPositions: map<string, (nat, nat)> := map[];
    var blocks: map<string, seq<AllocatedSlot>> := map[];
    diagnostics := [];
    hide InIdOrder, Mismatches, LastFrequency, Tallied, Grouped, Levels, Incomplete, AveragesEqual, Tally;
    NothingTallied();
    for i := 0 to |slots|
      invariant diagnostics == Mismatches(slots[..i])
      invariant forall v :: LastFrequency(slots[..i], v) == if v in frequencies then Some(frequencies[v]) else None
      invariant Tallied(slots[..i], Antenna, antennaPositions)
      invariant Tallied(slots[..i], Variant, variantPositions)
      invariant Grouped(slots[..i], blocks)
    {
      var s := slots[i];
      TakeNext(slots, i);
      MismatchNext(slots[..i], s);
      if s.variant in frequencies && frequencies[s.variant] != s.frequencyHz {
        diagnostics := diagnostics + [VariantFrequencyMismatch(s.index)];
      }
      frequencies := frequencies[s.variant := s.frequencyHz];
      TallyNext(slots[..i], s, Antenna, antennaPositions);
      antennaPositions := Tally(antennaPositions, s.antenna, s.position);
      TallyNext(slots[..i], s, Variant, variantPositions);
      variantPositions := Tally(variantPositions, s.variant, s.position);
      GroupNext(slots[..i], s, blocks);
      blocks := blocks[s.block := (if s.block in blocks then blocks[s.block] else []) + [s]];
    }
    assert slots[..|slots|] == slots;
    var expectedPairs := |Levels(slots, Antenna)| * |Levels(slots, Variant)|;
    var blockReports := CheckBlocks(slots, blocks, expectedPairs);
    var antennasBalanced := CheckBalance(slots, Antenna, antennaPositions);
    var variantsBalanced := CheckBalance(slots, Variant, variantPositions);
    diagnostics := diagnostics + blockReports;
    if !antennasBalanced || !variantsBalanced {
      diagnostics := diagnostics + [UnbalancedOrder];
    }
    NoMismatchIffOneFrequency(slots);
    NoneIncomplete(slots);
  }

  lemma {:induction false} NoneIncomplete(slots: seq<AllocatedSlot>)
    ensures |Incomplete(slots)| == 0 <==>
              forall b :: b in Blocks(slots) ==> IsComplete(InBlock(slots, b), ExpectedPairs(slots))
  {
    hide IsComplete, InBlock, ExpectedPairs, Blocks;
    forall b | b in Blocks(slots) && !IsComplete(InBlock(slots, b), ExpectedPairs(slots))
      ensures b in Incomplete(slots)
    {
    }
    assert |Incomplete(slots)| == 0 ==> Incomplete(slots) == {};
  }

  lemma NothingTallied()
    ensures Mismatches([]) == [] && Grouped([], map[])
    ensures forall v :: LastFrequency([], v) == None
    ensures forall f :: Tallied([], f, map[])
  {
  }

  // ----- complete blocks make equal averages mean equal sums -----

  lemma {:induction false} DistinctPairs(own: seq<AllocatedSlot>)
    ensures |Pairs(own)| <= |own|
    ensures own != [] && |Pairs(own)| == |own| ==>
              var n := |own| - 1;
              |Pairs(own[..n])| == n && (own[n].antenna, own[n].variant) !in Pairs(own[..n])
  {
    if own != [] {
      var n := |own| - 1;
      SplitLast(own);
      DistinctPairs(own[..n]);
      assert Pairs(own) == Pairs(own[..n]) + {(own[n].antenna, own[n].variant)};
    }
  }

  /** The levels of the other factor that a level is paired with. */
  function Partners(own: seq<AllocatedSlot>, factor: Factor, v: string): set<string> {
    set p | p in Pairs(own) && (if factor.Antenna? then p.0 else p.1) == v :: if factor.Antenna? then p.1 else p.0
  }

  lemma {:induction false} CountIsPartners(own: seq<AllocatedSlot>, factor: Factor, v: string)
    requires |Pairs(own)| == |own|
    ensures Count(own, factor, v) == |Partners(own, factor, v)|
  {
    if own != [] {
      var before, s := own[..|own| - 1], own[|own| - 1];
      SplitLast(own);
      DistinctPairs(own);
      CountIsPartners(before, factor, v);
      PartnersAppend(before, s, factor, v);
      hide Partners, Count, Pairs, Level;
      SumAppend(before, s, factor, v);
    }
  }

  lemma PartnersAppend(own: seq<AllocatedSlot>, s: AllocatedSlot, factor: Factor, v: string)
    ensures var partner := if factor.Antenna? then s.variant else s.antenna;
            && (Level(s, factor) != v ==> Partners(own + [s], factor, v) == Partners(own, factor, v))
            && (Level(s, factor) == v ==> Partners(own + [s], factor, v) == Partners(own, factor, v) + {partner})
            && (Level(s, factor) == v && (s.antenna, s.variant) !in Pairs(own) ==> partner !in Partners(own, factor, v))
  {
    var longer := own + [s];
    assert forall x :: x in longer <==> x in own || x == s;
    assert Pairs(longer) == Pairs(own) + {(s.antenna, s.variant)};
  }

  function Product(a: set<string>, b: set<string>): set<(string, string)> {
    set x, y | x in a && y in b :: (x, y)
  }

  lemma {:induction false} RowSize(x: string, b: set<string>)
    ensures |Product({x}, b)| == |b|
  {
    if b == {} {
      assert Product({x}, b) == {};
    } else {
      var y :| y in b;
      RowSize(x, b - {y});
      assert Product({x}, b) == Product({x}, b - {y}) + {(x, y)};
    }
  }

  lemma {:induction false} ProductSize(a: set<string>, b: set<string>)
    ensures |Product(a, b)| == |a| * |b|
  {
    if a == {} {
      assert Product(a, b) == {};
    } else {
      var x :| x in a;
      ProductSize(a - {x}, b);
      RowSize(x, b);
      assert Product(a, b) == Product(a - {x}, b) + Product({x}, b);
      assert Product(a - {x}, b) !! Product({x}, b);
      assert (|a| - 1) * |b| + |b| == |a| * |b|;
    }
  }

  lemma FullSubset<T>(small: set<T>, large: set<T>)
    requires small <= large && |small| == |large|
    ensures small == large
  {
    assert large == small + (large - small);
    assert |large| == |small| + |large - small|;
  }

  function OtherFactor(factor: Factor): Factor {
    if factor.Antenna? then Variant else Antenna
  }

  /** In a complete block every level of a factor occurs once per level of the other. */
  lemma {:induction false} CompleteBlockCount(slots: seq<AllocatedSlot>, own: seq<AllocatedSlot>, factor: Factor,
                                              v: string)
    requires forall s :: s in own ==> s in slots
    requires IsComplete(own, ExpectedPairs(slots)) && v in Levels(slots, factor)
    ensures Count(own, factor, v) == |Levels(slots, OtherFactor(factor))|
  {
    var antennas, variants := Levels(slots, Antenna), Levels(slots, Variant);
    ProductSize(antennas, variants);
    assert Pairs(own) <= Product(antennas, variants);
    FullSubset(Pairs(own), Product(antennas, variants));
    CountIsPartners(own, factor, v);
    forall y | y in Levels(slots, OtherFactor(factor))
      ensures y in Partners(own, factor, v)
    {
      assert (if factor.Antenna? then (v, y) else (y, v)) in Pairs(own);
    }
    assert Partners(own, factor, v) == Levels(slots, OtherFactor(factor));
  }

  function InBlocks(slots: seq<AllocatedSlot>, blocks: set<string>): seq<AllocatedSlot> {
    if slots == [] then []
    else
      var n := |slots| - 1;
      InBlocks(slots[..n], blocks) + (if slots[n].block in blocks then [slots[n]] else [])
  }

  lemma {:induction false} CountSplits(slots: seq<AllocatedSlot>, blocks: set<string>, b: string, factor: Factor,
                                       v: string)
    requires b in blocks
    ensures Count(InBlocks(slots, blocks), factor, v) ==
              Count(InBlocks(slots, blocks - {b}), factor, v) + Count(InBlock(slots, b), factor, v)
  {
    if slots != [] {
      var before, s := slots[..|slots| - 1], slots[|slots| - 1];
      hide Count, PositionSum, Level, InBlock, InBlocks;
      CountSplits(before, blocks, b, factor, v);
      SplitLast(slots);
      FiltersAppend(before, s, blocks, b);
      FiltersAppend(before, s, blocks - {b}, b);
      if s.block == b {
        SumAppend(InBlocks(before, blocks), s, factor, v);
        SumAppend(InBlock(before, b), s, factor, v);
      } else if s.block in blocks {
        SumAppend(InBlocks(before, blocks), s, factor, v);
        SumAppend(InBlocks(before, blocks - {b}), s, factor, v);
      }
    }
  }

  lemma {:induction false} FiltersAppend(slots: seq<AllocatedSlot>, s: AllocatedSlot, blocks: set<string>, b: string)
    ensures InBlocks(slots + [s], blocks) ==
              if s.block in blocks then InBlocks(slots, blocks) + [s] else InBlocks(slots, blocks)
    ensures InBlock(slots + [s], b) == if s.block == b then InBlock(slots, b) + [s] else InBlock(slots, b)
  {
    assert (slots + [s])[..|slots|] == slots;
  }

  lemma {:induction false} CompleteBlocksCount(slots: seq<AllocatedSlot>, blocks: set<string>, factor: Factor,
                                               v: string)
    requires blocks <= Blocks(slots) && v in Levels(slots, factor)
    requires forall b :: b in Blocks(slots) ==> IsComplete(InBlock(slots, b), ExpectedPairs(slots))
    ensures Count(InBlocks(slots, blocks), factor, v) == |blocks| * |Levels(slots, OtherFactor(factor))|
  {
    hide IsComplete, ExpectedPairs, Levels, Count, Blocks, InBlocks, OtherFactor;
    if blocks == {} {
      NoBlocks(slots);
      SumNothing(factor, v);
    } else {
      var b :| b in blocks;
      CompleteBlocksCount(slots, blocks - {b}, factor, v);
      CountSplits(slots, blocks, b, factor, v);
      CompleteBlockCount(slots, InBlock(slots, b), factor, v);
      OneMore(|blocks| - 1, |Levels(slots, OtherFactor(factor))|);
    }
  }

  lemma OneMore(k: nat, m: nat)
    ensures k * m + m == (k + 1) * m
  {
  }

  lemma {:induction false} SumNothing(factor: Factor, v: string)
    ensures PositionSum([], factor, v) == 0 && Count([], factor, v) == 0
  {
  }

  lemma {:induction false} NoBlocks(slots: seq<AllocatedSlot>)
    ensures InBlocks(slots, {}) == []
  {
    if slots != [] {
      NoBlocks(slots[..|slots| - 1]);
    }
  }

  lemma {:induction false} AllBlocks(slots: seq<AllocatedSlot>, blocks: set<string>)
    requires Blocks(slots) <= blocks
    ensures InBlocks(slots, blocks) == slots
  {
    if slots != [] {
      SplitLast(slots);
      assert slots[|slots| - 1] in slots;
      assert forall x :: x in slots[..|slots| - 1] ==> x in slots;
      AllBlocks(slots[..|slots| - 1], blocks);
    }
  }

  lemma AverageOverSameCount(s: nat, s': nat, c: nat)
    requires c != 0
    ensures Average((s, c)) == Average((s', c)) <==> s == s'
  {
    CrossMultiplied((s, c), (s', c));
    assert s * c == s' * c <==> (s - s') * c == 0;
  }

  /** With no unbalanced block, equal average positions are equal position sums. */
  lemma {:induction false} CompleteBlocksCompareSums(slots: seq<AllocatedSlot>, factor: Factor)
    requires forall b :: b in Blocks(slots) ==> IsComplete(InBlock(slots, b), ExpectedPairs(slots))
    ensures AveragesEqual(slots, factor) <==>
              forall v, w :: v in Levels(slots, factor) && w in Levels(slots, factor) ==>
                PositionSum(slots, factor, v) == PositionSum(slots, factor, w)
  {
    hide IsComplete, ExpectedPairs, Levels, Count, PositionSum, Average, Blocks;
    AllBlocks(slots, Blocks(slots));
    forall v, w | v in Levels(slots, factor) && w in Levels(slots, factor)
      ensures AveragePosition(slots, factor, v) == AveragePosition(slots, factor, w) <==>
              PositionSum(slots, factor, v) == PositionSum(slots, factor, w)
    {
      CompleteBlocksCount(slots, Blocks(slots), factor, v);
      CompleteBlocksCount(slots, Blocks(slots), factor, w);
      CountPositive(slots, factor, v);
      AverageOverSameCount(PositionSum(slots, factor, v), PositionSum(slots, factor, w), Count(slots, factor, v));
    }
  }

  // ----- mirrored schedules -----

  /** The second half repeats the first half's cells with every position reflected. */
  ghost predicate Mirrors(first: seq<AllocatedSlot>, second: seq<AllocatedSlot>, reflection: nat) {
    && |first| == |second|
    && forall i :: 0 <= i < |first| ==>
        && first[i].antenna == second[i].antenna && first[i].variant == second[i].variant
        && first[i].position + second[i].position == reflection
  }

  lemma {:induction false} MirroredSum(first: seq<AllocatedSlot>, second: seq<AllocatedSlot>, reflection: nat,
                                       factor: Factor, v: string)
    requires Mirrors(first, second, reflection)
    ensures Count(first, factor, v) == Count(second, factor, v)
    ensures PositionSum(first, factor, v) + PositionSum(second, factor, v) == reflection * Count(first, factor, v)
  {
    if first != [] {
      hide PositionSum, Count, Level;
      var n := |first| - 1;
      MirroredSum(first[..n], second[..n], reflection, factor, v);
      SplitLast(first);
      SplitLast(second);
      SumAppend(first[..n], first[n], factor, v);
      SumAppend(second[..n], second[n], factor, v);
      assert Level(first[n], factor) == Level(second[n], factor);
      ReflectedStep(PositionSum(first[..n], factor, v), PositionSum(second[..n], factor, v),
                    first[n].position, second[n].position, reflection, Count(first[..n], factor, v));
    }
  }

  lemma ReflectedStep(p: nat, q: nat, x: nat, y: nat, reflection: nat, c: nat)
    requires p + q == reflection * c && x + y == reflection
    ensures (p + x) + (q + y) == reflection * (c + 1)
  {
  }

  lemma {:induction false} SumConcat(a: seq<AllocatedSlot>, b: seq<AllocatedSlot>, factor: Factor, v: string)
    ensures PositionSum(a + b, factor, v) == PositionSum(a, factor, v) + PositionSum(b, factor, v)
    ensures Count(a + b, factor, v) == Count(a, factor, v) + Count(b, factor, v)
  {
    if b == [] {
      assert a + b == a;
    } else {
      ConcatLast(a, b);
      var n := |b| - 1;
      SumConcat(a, b[..n], factor, v);
      SumAppend(a + b[..n], b[n], factor, v);
    }
  }

  lemma SumWithout(b: seq<AllocatedSlot>, k: nat, factor: Factor, v: string)
    requires k < |b|
    ensures var rest, own := b[..k] + b[k + 1..], Level(b[k], factor) == v;
            && PositionSum(b, factor, v) == PositionSum(rest, factor, v) + (if own then b[k].position else 0)
            && Count(b, factor, v) == Count(rest, factor, v) + (if own then 1 else 0)
  {
    hide PositionSum, Count;
    RemoveAt(b, k);
    SumConcat(b[..k] + [b[k]], b[k + 1..], factor, v);
    SumAppend(b[..k], b[k], factor, v);
    SumConcat(b[..k], b[k + 1..], factor, v);
  }

  lemma {:induction false} SumPermutes(a: seq<AllocatedSlot>, b: seq<AllocatedSlot>, factor: Factor, v: string)
    requires multiset(a) == multiset(b)
    ensures PositionSum(a, factor, v) == PositionSum(b, factor, v) && Count(a, factor, v) == Count(b, factor, v)
  {
    if a == [] {
      assert |multiset(b)| == 0;
    } else {
      hide PositionSum, Count;
      var n := |a| - 1;
      var k := FindLast(a, b);
      SplitLast(a);
      SumPermutes(a[..n], b[..k] + b[k + 1..], factor, v);
      SumAppend(a[..n], a[n], factor, v);
      SumWithout(b, k, factor, v);
    }
  }

  /** Two blocks of which the second reflects the first. */
  datatype BlockPair = BlockPair(first: seq<AllocatedSlot>, second: seq<AllocatedSlot>, reflection: nat)

  function Flatten(pairs: seq<BlockPair>): seq<AllocatedSlot> {
    if pairs == [] then []
    else
      var n := |pairs| - 1;
      Flatten(pairs[..n]) + (pairs[n].first + pairs[n].second)
  }

  function Reflections(pairs: seq<BlockPair>): nat {
    if pairs == [] then 0 else Reflections(pairs[..|pairs| - 1]) + pairs[|pairs| - 1].reflection
  }

  lemma {:induction false} BlockPairSum(p: BlockPair, factor: Factor, v: string, m: nat)
    requires Mirrors(p.first, p.second, p.reflection) && Count(p.first, factor, v) == m
    ensures PositionSum(p.first + p.second, factor, v) == Times(p.reflection, m)
    ensures Count(p.first + p.second, factor, v) == m + m
  {
    hide PositionSum, Count, Mirrors;
    MirroredSum(p.first, p.second, p.reflection, factor, v);
    SumConcat(p.first, p.second, factor, v);
  }

  lemma {:induction false} PairedSums(pairs: seq<BlockPair>, factor: Factor, v: string, m: nat)
    requires forall p :: p in pairs ==> Mirrors(p.first, p.second, p.reflection) && Count(p.first, factor, v) == m
    ensures PositionSum(Flatten(pairs), factor, v) == Times(Reflections(pairs), m)
    ensures Count(Flatten(pairs), factor, v) == Times(|pairs|, m + m)
  {
    hide PositionSum, Count, Mirrors, Times;
    if pairs == [] {
      Distribute(0, 0, m);
      Distribute(0, 0, m + m);
      SumNothing(factor, v);
    } else {
      var n := |pairs| - 1;
      var p := pairs[n];
      assert p in pairs && forall q :: q in pairs[..n] ==> q in pairs;
      PairedSums(pairs[..n], factor, v, m);
      BlockPairSum(p, factor, v, m);
      SumConcat(Flatten(pairs[..n]), p.first + p.second, factor, v);
      Distribute(Reflections(pairs[..n]), p.reflection, m);
      Distribute(n, 1, m + m);
      assert Flatten(pairs) == Flatten(pairs[..n]) + (p.first + p.second);
      assert Reflections(pairs) == Reflections(pairs[..n]) + p.reflection;
      hide Flatten, Reflections;
    }
  }

  /** Multiplication kept behind a name, so that sums of products stay linear. */
  function Times(a: nat, b: nat): nat {
    a * b
  }

  lemma Distribute(a: nat, b: nat, m: nat)
    ensures Times(a + b, m) == Times(a, m) + Times(b, m)
    ensures Times(0, m) == 0 && Times(1, m) == m
  {
  }

  /** Halves that reflect complete halves have equal average positions. */
  lemma {:induction false} MirroredHalvesAverage(slots: seq<AllocatedSlot>, pairs: seq<BlockPair>, factor: Factor)
    requires multiset(slots) == multiset(Flatten(pairs))
    requires forall p :: p in pairs ==>
               Mirrors(p.first, p.second, p.reflection) && IsComplete(p.first, ExpectedPairs(slots))
    ensures AveragesEqual(slots, factor)
  {
    hide Mirrors, IsComplete, Levels, Count, PositionSum, Average, Flatten, OtherFactor, Times;
    var m := |Levels(slots, OtherFactor(factor))|;
    forall v | v in Levels(slots, factor)
      ensures PositionSum(slots, factor, v) == Times(Reflections(pairs), m)
              && Count(slots, factor, v) == Times(|pairs|, m + m)
    {
      forall p | p in pairs
        ensures Count(p.first, factor, v) == m
      {
        FirstInSlots(slots, pairs, p);
        CompleteBlockCount(slots, p.first, factor, v);
      }
      PairedSums(pairs, factor, v, m);
      SumPermutes(slots, Flatten(pairs), factor, v);
      CountPositive(slots, factor, v);
    }
  }

  lemma {:induction false} FirstInFlatten(pairs: seq<BlockPair>, p: BlockPair, s: AllocatedSlot)
    requires p in pairs && s in p.first
    ensures s in Flatten(pairs)
  {
    var n := |pairs| - 1;
    SplitLast(pairs);
    if p != pairs[n] {
      FirstInFlatten(pairs[..n], p, s);
    }
  }

  lemma {:induction false} FirstInSlots(slots: seq<AllocatedSlot>, pairs: seq<BlockPair>, p: BlockPair)
    requires multiset(slots) == multiset(Flatten(pairs)) && p in pairs
    ensures forall s :: s in p.first ==> s in slots
  {
    forall s | s in p.first
      ensures s in slots
    {
      FirstInFlatten(pairs, p, s);
      assert s in multiset(Flatten(pairs));
      assert s in multiset(slots);
    }
  }

  /** The half is one block of the schedule, its slots in any order. */
  ghost predicate IsBlock(slots: seq<AllocatedSlot>, half: seq<AllocatedSlot>) {
    exists b :: multiset(half) == multiset(InBlock(slots, b))
  }

  /** The schedule consists of pairs of blocks; each pair reflects a complete block. */
  ghost predicate MirroredSchedule(slots: seq<AllocatedSlot>, pairs: seq<BlockPair>) {
    && multiset(slots) == multiset(Flatten(pairs))
    && forall p :: p in pairs ==>
        && IsBlock(slots, p.first) && IsBlock(slots, p.second)
        && Mirrors(p.first, p.second, p.reflection) && IsComplete(p.first, ExpectedPairs(slots))
  }

  /** As many positions as slots means that no position repeats. */
  lemma {:induction false} DistinctPositions(own: seq<AllocatedSlot>)
    ensures |Positions(own)| <= |own|
    ensures |Positions(own)| == |own| <==> forall i, j :: 0 <= i < j < |own| ==> own[i].position != own[j].position
  {
    if own != [] {
      var n := |own| - 1;
      DistinctPositions(own[..n]);
      SplitLast(own);
      PositionsAppend(own[..n], own[n]);
      hide Positions;
    }
  }

  lemma PositionsAppend(own: seq<AllocatedSlot>, s: AllocatedSlot)
    ensures Positions(own + [s]) == Positions(own) + {s.position}
    ensures s.position in Positions(own) <==> exists i :: 0 <= i < |own| && own[i].position == s.position
  {
    assert forall x :: x in own + [s] <==> x in own || x == s;
  }

  lemma ReflectionKeepsPairs(first: seq<AllocatedSlot>, second: seq<AllocatedSlot>, reflection: nat)
    requires Mirrors(first, second, reflection)
    ensures Pairs(second) == Pairs(first)
  {
    forall c
      ensures c in Pairs(first) <==> c in Pairs(second)
    {
      if c in Pairs(first) {
        var i :| 0 <= i < |first| && c == (first[i].antenna, first[i].variant);
        assert second[i] in second;
      }
      if c in Pairs(second) {
        var i :| 0 <= i < |second| && c == (second[i].antenna, second[i].variant);
        assert first[i] in first;
      }
    }
  }

  /** The reflection of a complete block is complete. */
  lemma ReflectionIsComplete(first: seq<AllocatedSlot>, second: seq<AllocatedSlot>, reflection: nat, expectedPairs: nat)
    requires Mirrors(first, second, reflection) && IsComplete(first, expectedPairs)
    ensures IsComplete(second, expectedPairs)
  {
    ReflectionKeepsPairs(first, second, reflection);
    DistinctPositions(first);
    DistinctPositions(second);
    hide Pairs, Positions;
  }

  /** Completeness does not depend on the order of the slots. */
  lemma CompletePermutes(own: seq<AllocatedSlot>, other: seq<AllocatedSlot>, expectedPairs: nat)
    requires multiset(own) == multiset(other) && IsComplete(own, expectedPairs)
    ensures IsComplete(other, expectedPairs)
  {
    assert |own| == |multiset(own)| == |multiset(other)| == |other|;
    forall s
      ensures s in own <==> s in other
    {
      assert s in own <==> s in multiset(own);
      assert s in other <==> s in multiset(other);
    }
    assert Pairs(own) == Pairs(other) && Positions(own) == Positions(other);
  }

  lemma {:induction false} FlattenMembers(pairs: seq<BlockPair>, s: AllocatedSlot)
    requires s in Flatten(pairs)
    ensures exists p :: p in pairs && (s in p.first || s in p.second)
  {
    var n := |pairs| - 1;
    if s in Flatten(pairs[..n]) {
      FlattenMembers(pairs[..n], s);
      var p :| p in pairs[..n] && (s in p.first || s in p.second);
      assert p in pairs;
    } else {
      assert pairs[n] in pairs;
    }
  }

  /** A block that shares a slot with a half is that half. */
  lemma {:induction false} HalfIsItsBlock(slots: seq<AllocatedSlot>, half: seq<AllocatedSlot>, s: AllocatedSlot)
    requires IsBlock(slots, half) && s in half
    ensures multiset(half) == multiset(InBlock(slots, s.block))
  {
    var b :| multiset(half) == multiset(InBlock(slots, b));
    assert s in multiset(half);
    assert s in InBlock(slots, b);
  }

  /** Every block of a mirrored schedule is complete. */
  lemma {:induction false} MirroredBlocksAreComplete(slots: seq<AllocatedSlot>, pairs: seq<BlockPair>, b: string)
    requires MirroredSchedule(slots, pairs) && b in Blocks(slots)
    ensures IsComplete(InBlock(slots, b), ExpectedPairs(slots))
  {
    var s :| s in slots && s.block == b;
    assert s in multiset(slots);
    assert s in multiset(Flatten(pairs));
    FlattenMembers(pairs, s);
    var p :| p in pairs && (s in p.first || s in p.second);
    hide IsComplete, InBlock, Mirrors, IsBlock, ExpectedPairs;
    ReflectionIsComplete(p.first, p.second, p.reflection, ExpectedPairs(slots));
    var half := if s in p.first then p.first else p.second;
    HalfIsItsBlock(slots, half, s);
    CompletePermutes(half, InBlock(slots, b), ExpectedPairs(slots));
  }

  /**
   A schedule of blocks in pairs that reflect each other, each pair around a complete block, passes the block
   check and the order check; with one frequency to each variant nothing at all is reported.
   */
  lemma MirroredBlocksAreBalanced(slots: seq<AllocatedSlot>, pairs: seq<BlockPair>)
    requires MirroredSchedule(slots, pairs)
    ensures Incomplete(slots) == {}
    ensures AveragesEqual(slots, Antenna) && AveragesEqual(slots, Variant)
    ensures Counterbalanced(slots) <==>
              forall s, t :: s in slots && t in slots && s.variant == t.variant ==> s.frequencyHz == t.frequencyHz
  {
    hide AveragesEqual, IsComplete, ExpectedPairs, InBlock, Blocks, Flatten, Mirrors, IsBlock;
    forall b | b in Blocks(slots)
      ensures IsComplete(InBlock(slots, b), ExpectedPairs(slots))
    {
      MirroredBlocksAreComplete(slots, pairs, b);
    }
    MirroredHalvesAverage(slots, pairs, Antenna);
    MirroredHalvesAverage(slots, pairs, Variant);
  }

  // ----- 64-bit arithmetic -----

  const U32: nat := 0x1_0000_0000
  const U64: nat := 0x1_0000_0000_0000_0000

  // ----- what a complete block holds -----

  predicate SamePair(a: AllocatedSlot, b: AllocatedSlot) {
    a.antenna == b.antenna && a.variant == b.variant
  }

  lemma PairsAppend(own: seq<AllocatedSlot>, s: AllocatedSlot)
    ensures Pairs(own + [s]) == Pairs(own) + {(s.antenna, s.variant)}
    ensures (s.antenna, s.variant) in Pairs(own) <==> exists i :: 0 <= i < |own| && SamePair(own[i], s)
  {
    assert forall x :: x in own + [s] <==> x in own || x == s;
  }

  /** As many pairs as slots means that no pair repeats. */
  lemma {:induction false} DistinctPairsIff(own: seq<AllocatedSlot>)
    ensures |Pairs(own)| <= |own|
    ensures |Pairs(own)| == |own| <==> forall i, j :: 0 <= i < j < |own| ==> !SamePair(own[i], own[j])
  {
    if own != [] {
      var n := |own| - 1;
      DistinctPairsIff(own[..n]);
      SplitLast(own);
      PairsAppend(own[..n], own[n]);
      hide Pairs, SamePair;
    }
  }

  /** Every antenna with every variant of the plan. */
  ghost predicate HoldsAllPairs(slots: seq<AllocatedSlot>, own: seq<AllocatedSlot>) {
    forall x, y :: x in Levels(slots, Antenna) && y in Levels(slots, Variant) ==> (x, y) in Pairs(own)
  }

  /** A block is complete exactly if it holds every antenna with every variant, no pair twice, and no position twice. */
  lemma CompleteByPairs(slots: seq<AllocatedSlot>, own: seq<AllocatedSlot>)
    requires forall s :: s in own ==> s in slots
    ensures IsComplete(own, ExpectedPairs(slots)) <==>
              && HoldsAllPairs(slots, own)
              && (forall i, j :: 0 <= i < j < |own| ==> !SamePair(own[i], own[j]))
              && (forall i, j :: 0 <= i < j < |own| ==> own[i].position != own[j].position)
  {
    AllPairsCount(slots, own);
    DistinctPairsIff(own);
    DistinctPositions(own);
    hide Pairs, Positions, HoldsAllPairs, SamePair, ExpectedPairs;
  }

  lemma AllPairsCount(slots: seq<AllocatedSlot>, own: seq<AllocatedSlot>)
    requires forall s :: s in own ==> s in slots
    ensures HoldsAllPairs(slots, own) <==> |Pairs(own)| == ExpectedPairs(slots)
  {
    var all := Product(Levels(slots, Antenna), Levels(slots, Variant));
    ProductSize(Levels(slots, Antenna), Levels(slots, Variant));
    assert Pairs(own) <= all;
    assert HoldsAllPairs(slots, own) <==> Pairs(own) == all;
    hide HoldsAllPairs, Pairs, Product, Levels;
    if |Pairs(own)| == |all| {
      FullSubset(Pairs(own), all);
    }
  }

  lemma {:induction false} TalliesFit(slots: seq<AllocatedSlot>, factor: Factor, v: string)
    requires forall s :: s in slots ==> s.position < U32
    ensures Count(slots, factor, v) <= |slots| && PositionSum(slots, factor, v) <= |slots| * (U32 - 1)
  {
    if slots != [] {
      assert slots[|slots| - 1] in slots;
      TalliesFit(slots[..|slots| - 1], factor, v);
    }
  }

  /** With 32-bit positions and fewer than 65536 slots no cross product overflows 64 bits. */
  lemma {:induction false} CrossProductsFit(slots: seq<AllocatedSlot>, factor: Factor, v: string, w: string)
    requires (forall s :: s in slots ==> s.position < U32) && |slots| < 0x1_0000
    ensures PositionSum(slots, factor, v) * Count(slots, factor, w) < U64
  {
    TalliesFit(slots, factor, v);
    TalliesFit(slots, factor, w);
    var sum, count := PositionSum(slots, factor, v), Count(slots, factor, w);
    assert sum <= 0xFFFF * (U32 - 1);
    MulUpper(sum, 0xFFFF * (U32 - 1), count, 0xFFFF);
  }

  lemma MulUpper(a: nat, b: nat, x: nat, y: nat)
    requires a <= b && x <= y
    ensures a * x <= b * y
  {
    assert a * x <= b * x <= b * y;
  }
}
