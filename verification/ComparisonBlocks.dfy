/** Cutting aligned slots into comparison blocks of two slots on one band. */
module ComparisonBlocks {
  import opened Prelude
  import opened Records
  import opened Alignment

  datatype Order = LeftThenRight | RightThenLeft

  datatype Eligibility =
    | Eligible | AmbiguousSequenceOrder | IncompleteSameBandRun | MissingActualLabel | RepeatedLabel | UnsupportedLabel

  datatype Block = Block(
    index: nat, band: Band, first: AlignedSlot, second: Option<AlignedSlot>, order: Option<Order>,
    eligibility: Eligibility)

  function BlockState(first: AlignedSlot, second: Option<AlignedSlot>, left: string, right: string)
    : (Option<Order>, Eligibility)
  {
    if second.None? then (None, IncompleteSameBandRun)
    else if first.actualLabel.None? || second.value.actualLabel.None? then (None, MissingActualLabel)
    else
      var a, b := first.actualLabel.value, second.value.actualLabel.value;
      if a == b then (None, RepeatedLabel)
      else if a == left && b == right then (Some(LeftThenRight), Eligible)
      else if a == right && b == left then (Some(RightThenLeft), Eligible)
      else (None, UnsupportedLabel)
  }

  // ----- the order of the slots -----

  predicate SlotBefore(a: AlignedSlot, b: AlignedSlot) {
    a.sequenceNumber < b.sequenceNumber || (a.sequenceNumber == b.sequenceNumber && IdLess(a.slotId, b.slotId))
  }

  function InsertSlot(slots: seq<AlignedSlot>, slot: AlignedSlot): seq<AlignedSlot> {
    if slots == [] || SlotBefore(slot, slots[0]) then [slot] + slots else [slots[0]] + InsertSlot(slots[1..], slot)
  }

  /** The slots by sequence number, then id; ties stay in the given order. */
  function InSequence(slots: seq<AlignedSlot>): seq<AlignedSlot> {
    if slots == [] then [] else InsertSlot(InSequence(slots[..|slots| - 1]), slots[|slots| - 1])
  }

  lemma {:induction false} InsertKeepsSlots(slots: seq<AlignedSlot>, slot: AlignedSlot)
    ensures multiset(InsertSlot(slots, slot)) == multiset(slots) + multiset{slot}
  {
    if slots != [] && !SlotBefore(slot, slots[0]) {
      hide SlotBefore;
      InsertKeepsSlots(slots[1..], slot);
      assert slots == [slots[0]] + slots[1..];
    }
  }

  lemma {:induction false} SortingKeepsSlots(slots: seq<AlignedSlot>)
    ensures multiset(InSequence(slots)) == multiset(slots)
  {
    if slots != [] {
      var n := |slots| - 1;
      hide InsertSlot;
      SortingKeepsSlots(slots[..n]);
      InsertKeepsSlots(InSequence(slots[..n]), slots[n]);
      SplitLast(slots);
    }
  }

  // ----- blocks -----

  predicate HasAmbiguousOrder(slots: seq<AlignedSlot>) {
    exists i :: 0 <= i < |slots| - 1 && slots[i].sequenceNumber == slots[i + 1].sequenceNumber
  }

  function MakeBlock(index: nat, first: AlignedSlot, second: Option<AlignedSlot>, ambiguous: bool,
                     left: string, right: string): Block
  {
    var state := if ambiguous then (None, AmbiguousSequenceOrder) else BlockState(first, second, left, right);
    Block(index, first.band, first, second, state.0, state.1)
  }

  /** Pair neighbours on one band from the front; a slot without such a neighbour stands alone. */
  function BlocksFrom(slots: seq<AlignedSlot>, index: nat, ambiguous: bool, left: string, right: string)
    : (blocks: seq<Block>)
    ensures slots != [] ==> blocks != []
    decreases |slots|
  {
    if slots == [] then []
    else if |slots| >= 2 && slots[1].band == slots[0].band then
      [MakeBlock(index, slots[0], Some(slots[1]), ambiguous, left, right)]
      + BlocksFrom(slots[2..], index + 1, ambiguous, left, right)
    else
      [MakeBlock(index, slots[0], None, ambiguous, left, right)]
      + BlocksFrom(slots[1..], index + 1, ambiguous, left, right)
  }

  function BlocksOf(slots: seq<AlignedSlot>, left: string, right: string): seq<Block> {
    BlocksFrom(slots, 0, HasAmbiguousOrder(slots), left, right)
  }

  /** The blocks made so far and those of the slots from here on are all the blocks. */
  ghost predicate MadeUpTo(blocks: seq<Block>, slots: seq<AlignedSlot>, at: nat, left: string, right: string) {
    && at <= |slots|
    && blocks + BlocksFrom(slots[at..], |blocks|, HasAmbiguousOrder(slots), left, right) == BlocksOf(slots, left, right)
  }

  /** Chunking each same-band run by twos. */
  method BuildBlocks(slots: seq<AlignedSlot>, left: string, right: string) returns (blocks: seq<Block>)
    ensures blocks == BlocksOf(slots, left, right)
  {
    blocks := [];
    var ambiguous := HasAmbiguousOrder(slots);
    NothingMade(slots, left, right);
    hide HasAmbiguousOrder, MakeBlock, BlocksFrom, BlocksOf, MadeUpTo;
    var runStart := 0;
    while runStart < |slots|
      invariant 0 <= runStart <= |slots|
      invariant MadeUpTo(blocks, slots, runStart, left, right)
    {
      var band := slots[runStart].band;
      var runEnd := runStart + 1;
      while runEnd < |slots| && slots[runEnd].band == band
        invariant runStart < runEnd <= |slots|
        invariant forall k :: runStart <= k < runEnd ==> slots[k].band == band
      {
        runEnd := runEnd + 1;
      }
      var at := runStart;
      while at < runEnd
        invariant runStart <= at <= runEnd
        invariant MadeUpTo(blocks, slots, at, left, right)
      {
        var second := if at + 1 < runEnd then Some(slots[at + 1]) else None;
        OneMoreMade(slots, at, runEnd, blocks, left, right);
        blocks := blocks + [MakeBlock(|blocks|, slots[at], second, ambiguous, left, right)];
        at := if second.Some? then at + 2 else at + 1;
      }
      runStart := runEnd;
    }
    AllMade(slots, blocks, left, right);
  }

  lemma NothingMade(slots: seq<AlignedSlot>, left: string, right: string)
    ensures MadeUpTo([], slots, 0, left, right)
  {
    assert slots[0..] == slots;
  }

  lemma {:induction false} AllMade(slots: seq<AlignedSlot>, blocks: seq<Block>, left: string, right: string)
    requires MadeUpTo(blocks, slots, |slots|, left, right)
    ensures blocks == BlocksOf(slots, left, right)
  {
    hide BlocksOf, HasAmbiguousOrder;
    assert slots[|slots|..] == [];
  }

  lemma {:induction false} OneMoreMade(slots: seq<AlignedSlot>, at: nat, runEnd: nat, blocks: seq<Block>,
                                       left: string, right: string)
    requires at < runEnd <= |slots| && MadeUpTo(blocks, slots, at, left, right)
    requires forall k :: at <= k < runEnd ==> slots[k].band == slots[at].band
    requires runEnd < |slots| ==> slots[runEnd].band != slots[at].band
    ensures var paired := at + 1 < runEnd;
            var second := if paired then Some(slots[at + 1]) else None;
            var block := MakeBlock(|blocks|, slots[at], second, HasAmbiguousOrder(slots), left, right);
            MadeUpTo(blocks + [block], slots, if paired then at + 2 else at + 1, left, right)
  {
    BlocksStep(slots, at, runEnd, blocks, HasAmbiguousOrder(slots), left, right);
    hide BlocksOf, HasAmbiguousOrder, MakeBlock, BlocksFrom;
  }

  /** Taking one chunk off the front of a run is one step of the pairing. */
  lemma {:induction false} BlocksStep(slots: seq<AlignedSlot>, at: nat, runEnd: nat, blocks: seq<Block>,
                                      ambiguous: bool, left: string, right: string)
    requires at < runEnd <= |slots|
    requires forall k :: at <= k < runEnd ==> slots[k].band == slots[at].band
    requires runEnd < |slots| ==> slots[runEnd].band != slots[at].band
    ensures var paired := at + 1 < runEnd;
            var second := if paired then Some(slots[at + 1]) else None;
            var rest := slots[if paired then at + 2 else at + 1..];
            var block := MakeBlock(|blocks|, slots[at], second, ambiguous, left, right);
            blocks + BlocksFrom(slots[at..], |blocks|, ambiguous, left, right)
            == (blocks + [block]) + BlocksFrom(rest, |blocks| + 1, ambiguous, left, right)
  {
    hide MakeBlock;
    var rest := slots[at..];
    assert rest[1..] == slots[at + 1..];
    if |rest| >= 2 {
      assert rest[2..] == slots[at + 2..];
    }
  }

  // ----- what the blocks conserve -----

  function SlotsIn(b: Block): seq<AlignedSlot> {
    [b.first] + (if b.second.Some? then [b.second.value] else [])
  }

  function SlotsInAll(blocks: seq<Block>): seq<AlignedSlot> {
    if blocks == [] then [] else SlotsIn(blocks[0]) + SlotsInAll(blocks[1..])
  }

  /**
   Every slot lands in exactly one block, in order; blocks are numbered in order; a block never
   crosses a band change; and a slot stands alone only where its band ends.
   */
  lemma {:induction false} BlocksConserveSlots(slots: seq<AlignedSlot>, index: nat, ambiguous: bool, left: string,
                                               right: string)
    ensures var blocks := BlocksFrom(slots, index, ambiguous, left, right);
            && SlotsInAll(blocks) == slots
            && (forall i :: 0 <= i < |blocks| ==>
                  && blocks[i].index == index + i && blocks[i].first.band == blocks[i].band
                  && (blocks[i].second.Some? ==> blocks[i].second.value.band == blocks[i].band))
            && (forall i :: 0 <= i < |blocks| - 1 && blocks[i].second.None? ==> blocks[i].band != blocks[i + 1].band)
    decreases |slots|
  {
    if slots != [] {
      hide BlockState;
      var blocks := BlocksFrom(slots, index, ambiguous, left, right);
      var taken := if |slots| >= 2 && slots[1].band == slots[0].band then 2 else 1;
      var rest := BlocksFrom(slots[taken..], index + 1, ambiguous, left, right);
      BlocksConserveSlots(slots[taken..], index + 1, ambiguous, left, right);
      assert blocks[1..] == rest;
      assert slots == slots[..taken] + slots[taken..];
      assert SlotsIn(blocks[0]) == slots[..taken];
    }
  }

  // ----- the same blocks whichever antenna is called left -----

  function SwapOrder(order: Option<Order>): Option<Order> {
    match order
    case None => None
    case Some(LeftThenRight) => Some(RightThenLeft)
    case Some(RightThenLeft) => Some(LeftThenRight)
  }

  function SwapBlock(b: Block): Block {
    b.(order := SwapOrder(b.order))
  }

  lemma StateSwaps(first: AlignedSlot, second: Option<AlignedSlot>, left: string, right: string)
    requires left != right
    ensures BlockState(first, second, right, left) ==
              (SwapOrder(BlockState(first, second, left, right).0), BlockState(first, second, left, right).1)
  {
  }

  lemma {:induction false} BlocksSwap(slots: seq<AlignedSlot>, index: nat, ambiguous: bool, left: string, right: string)
    requires left != right
    ensures var blocks := BlocksFrom(slots, index, ambiguous, left, right);
            var swapped := BlocksFrom(slots, index, ambiguous, right, left);
            |swapped| == |blocks| && forall i :: 0 <= i < |blocks| ==> swapped[i] == SwapBlock(blocks[i])
    decreases |slots|
  {
    if slots != [] {
      hide BlockState;
      var taken := if |slots| >= 2 && slots[1].band == slots[0].band then 2 else 1;
      StateSwaps(slots[0], if taken == 2 then Some(slots[1]) else None, left, right);
      BlocksSwap(slots[taken..], index + 1, ambiguous, left, right);
    }
  }

  /** Eligible blocks, and only they, have an order. */
  lemma {:induction false} EligibleBlocksAreOrdered(slots: seq<AlignedSlot>, index: nat, ambiguous: bool, left: string,
                                                    right: string)
    ensures forall b :: b in BlocksFrom(slots, index, ambiguous, left, right) ==>
              (b.eligibility == Eligible <==> b.order.Some?)
    decreases |slots|
  {
    if slots != [] {
      var taken := if |slots| >= 2 && slots[1].band == slots[0].band then 2 else 1;
      EligibleBlocksAreOrdered(slots[taken..], index + 1, ambiguous, left, right);
    }
  }

  /** An eligible block holds one slot of each antenna, and its order names the antenna that came first. */
  lemma {:induction false} OrderNamesTheFirst(slots: seq<AlignedSlot>, index: nat, ambiguous: bool, left: string,
                                              right: string)
    ensures forall b :: b in BlocksFrom(slots, index, ambiguous, left, right) && b.eligibility == Eligible ==>
              && left != right && b.second.Some? && b.second.value.actualLabel.Some?
              && b.first.actualLabel == Some(if b.order == Some(LeftThenRight) then left else right)
              && b.second.value.actualLabel == Some(if b.order == Some(LeftThenRight) then right else left)
    decreases |slots|
  {
    if slots != [] {
      var taken := if |slots| >= 2 && slots[1].band == slots[0].band then 2 else 1;
      OrderNamesTheFirst(slots[taken..], index + 1, ambiguous, left, right);
    }
  }

  // ----- what decides a block's eligibility -----

  /** One slot comes before another in sequence, or its id is no greater at the same place. */
  predicate InOrder(a: AlignedSlot, b: AlignedSlot) {
    a.sequenceNumber < b.sequenceNumber || (a.sequenceNumber == b.sequenceNumber && !IdLess(b.slotId, a.slotId))
  }

  ghost predicate Sequential(slots: seq<AlignedSlot>) {
    forall i, j :: 0 <= i < j < |slots| ==> InOrder(slots[i], slots[j])
  }

  lemma OrderIsTransitive(a: AlignedSlot, b: AlignedSlot, c: AlignedSlot)
    requires InOrder(a, b) && InOrder(b, c)
    ensures InOrder(a, c)
  {
    IdOrderIsTransitive(a.slotId, b.slotId, c.slotId);
    hide IdLess;
  }

  lemma {:induction false} InsertSequential(slots: seq<AlignedSlot>, slot: AlignedSlot)
    requires Sequential(slots)
    ensures Sequential(InsertSlot(slots, slot))
    ensures forall s :: s in InsertSlot(slots, slot) <==> s in slots || s == slot
  {
    var longer := InsertSlot(slots, slot);
    if slots != [] {
      IdsAreOrdered(slot.slotId, slots[0].slotId);
      hide IdLess;
      if SlotBefore(slot, slots[0]) {
        hide SlotBefore;
        assert longer == [slot] + slots;
        forall j | 0 < j < |slots|
          ensures InOrder(slot, slots[j])
        {
          OrderIsTransitive(slot, slots[0], slots[j]);
        }
      } else {
        InsertSequential(slots[1..], slot);
        var rest := InsertSlot(slots[1..], slot);
        assert longer == [slots[0]] + rest;
        assert forall s :: s in slots <==> s == slots[0] || s in slots[1..];
        forall j | 0 <= j < |rest|
          ensures InOrder(slots[0], rest[j])
        {
          assert rest[j] in rest;
          if rest[j] != slot {
            var k :| 0 <= k < |slots[1..]| && slots[1..][k] == rest[j];
            assert slots[k + 1] == rest[j];
          }
        }
      }
    }
  }

  /** The blocks are cut from the slots in the order of their sequence numbers, then of their ids. */
  lemma {:induction false} SortingIsSequential(slots: seq<AlignedSlot>)
    ensures Sequential(InSequence(slots))
  {
    if slots != [] {
      SortingIsSequential(slots[..|slots| - 1]);
      InsertSequential(InSequence(slots[..|slots| - 1]), slots[|slots| - 1]);
      hide InsertSlot, Sequential;
    }
  }

  /** The order is ambiguous exactly when any two slots share a sequence number. */
  lemma AmbiguousIffShared(slots: seq<AlignedSlot>)
    requires Sequential(slots)
    ensures HasAmbiguousOrder(slots) <==>
              exists i, j :: 0 <= i < j < |slots| && slots[i].sequenceNumber == slots[j].sequenceNumber
  {
    hide IdLess;
    if i, j :| 0 <= i < j < |slots| && slots[i].sequenceNumber == slots[j].sequenceNumber {
      assert InOrder(slots[i], slots[i + 1]);
      assert i + 1 < j ==> InOrder(slots[i + 1], slots[j]);
      assert slots[i].sequenceNumber == slots[i + 1].sequenceNumber;
    }
    AmbiguousIsShared(slots);
  }

  lemma AmbiguousIsShared(slots: seq<AlignedSlot>)
    ensures HasAmbiguousOrder(slots) ==>
              exists i, j :: 0 <= i < j < |slots| && slots[i].sequenceNumber == slots[j].sequenceNumber
  {
    if HasAmbiguousOrder(slots) {
      var i :| 0 <= i < |slots| - 1 && slots[i].sequenceNumber == slots[i + 1].sequenceNumber;
      var j := i + 1;
      assert slots[i].sequenceNumber == slots[j].sequenceNumber;
    }
  }

  /** The labels of a block's two slots are the two given ones, in either order. */
  predicate IsPair(b: Block, left: string, right: string) {
    && b.second.Some? && left != right
    && ((b.first.actualLabel == Some(left) && b.second.value.actualLabel == Some(right))
        || (b.first.actualLabel == Some(right) && b.second.value.actualLabel == Some(left)))
  }

  /** Why a block is eligible or not. */
  ghost predicate JudgedByLabels(b: Block, ambiguous: bool, left: string, right: string) {
    && (b.eligibility == AmbiguousSequenceOrder <==> ambiguous)
    && (b.eligibility == IncompleteSameBandRun <==> !ambiguous && b.second.None?)
    && (b.eligibility == MissingActualLabel <==>
          !ambiguous && b.second.Some? && (b.first.actualLabel.None? || b.second.value.actualLabel.None?))
    && (b.eligibility == RepeatedLabel <==>
          !ambiguous && b.second.Some? && b.first.actualLabel.Some?
          && b.first.actualLabel == b.second.value.actualLabel)
    && (b.eligibility == Eligible <==> !ambiguous && IsPair(b, left, right))
  }

  lemma {:induction false} BlocksAreJudgedByLabels(slots: seq<AlignedSlot>, index: nat, ambiguous: bool, left: string,
                                                   right: string)
    ensures forall b :: b in BlocksFrom(slots, index, ambiguous, left, right) ==>
              JudgedByLabels(b, ambiguous, left, right)
    decreases |slots|
  {
    if slots != [] {
      var taken := if |slots| >= 2 && slots[1].band == slots[0].band then 2 else 1;
      BlocksAreJudgedByLabels(slots[taken..], index + 1, ambiguous, left, right);
    }
  }
}
