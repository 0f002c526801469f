/** When a paired row can rely on the slot that its observations store. */
module StoredSlots {
  import opened Prelude
  import opened Records
  import opened Alignment
  import opened Attribution
  import opened ComparisonBlocks
  import opened Comparison
  import opened PairedEvidence
  import opened Eligibility
  import ComparisonOrder

  // ----- the slot of an observation depends on the windows alone -----

  predicate CoversPlanned(slot: PlannedSlot, at: Instant) {
    slot.startsAt <= at < SlotEnd(slot)
  }

  /** The first planned slot whose window covers the instant. */
  function FirstPlanned(slots: seq<PlannedSlot>, at: Instant): (slot: Option<PlannedSlot>)
    ensures slot.Some? ==> slot.value in slots && CoversPlanned(slot.value, at)
    ensures slot.None? ==> forall s :: s in slots ==> !CoversPlanned(s, at)
  {
    if slots == [] then None
    else if CoversPlanned(slots[0], at) then Some(slots[0])
    else FirstPlanned(slots[1..], at)
  }

  /** The first planned slot covering the observation is on its band. */
  predicate FirstIsOnBand(slots: seq<PlannedSlot>, o: Observation) {
    FirstPlanned(slots, o.timestamp).Some? && FirstPlanned(slots, o.timestamp).value.band == o.band
  }

  predicate SameWindow(slot: PlannedSlot, aligned: AlignedSlot) {
    && aligned.startsAt == slot.startsAt && aligned.endsAt == SlotEnd(slot)
    && aligned.slotId == slot.slotId && aligned.band == slot.band
  }

  lemma {:induction false} FirstCoveringIsPlanned(slots: seq<PlannedSlot>, aligned: seq<AlignedSlot>, at: Instant)
    requires |aligned| == |slots| && forall i :: 0 <= i < |slots| ==> SameWindow(slots[i], aligned[i])
    ensures var planned, found := FirstPlanned(slots, at), FirstCovering(aligned, at);
            && (planned.Some? <==> found.Some?)
            && (planned.Some? ==> SameWindow(planned.value, found.value))
  {
    if slots != [] {
      assert SameWindow(slots[0], aligned[0]);
      FirstCoveringIsPlanned(slots[1..], aligned[1..], at);
    }
  }

  /** An observation is assigned the first planned slot that covers it, whatever happened, if that is on its band. */
  lemma AssignedIsFirstPlanned(o: Observation, schedule: Schedule, events: seq<LegacyEvent>)
    ensures var a, slot := Assign(o, AlignSlots(schedule, events), BOUNDARY_SECONDS),
                           FirstPlanned(schedule.slots, o.timestamp);
            a.slotId == if FirstIsOnBand(schedule.slots, o) then Some(slot.value.slotId) else None
    ensures !FirstIsOnBand(schedule.slots, o) ==>
              var a := Assign(o, AlignSlots(schedule, events), BOUNDARY_SECONDS);
              a.slotLabel.None? && a.confidence == 0.0
  {
    var slots := AlignSlots(schedule, events);
    hide FirstCovering, FirstPlanned, NumSeconds;
    forall i | 0 <= i < |slots|
      ensures SameWindow(schedule.slots[i], slots[i])
    {
      hide Naming, OfType, Earliest;
    }
    hide AlignSlot;
    FirstCoveringIsPlanned(schedule.slots, slots, o.timestamp);
  }

  // ----- observations -----

  function WithAnnotation(o: Observation, slotId: Option<string>, antenna: Option<string>, confidence: Option<real>)
    : Observation
  {
    o.(slotId := slotId, slotLabel := antenna, slotConfidence := confidence)
  }

  /** Whatever the observation at this position stores, it stores a slot if it stays included. */
  ghost predicate MustStoreASlot(schedule: Schedule, events: seq<LegacyEvent>, observations: seq<Observation>, i: nat)
    requires i < |observations|
  {
    forall slotId, antenna, confidence ::
      var o := WithAnnotation(observations[i], slotId, antenna, confidence);
      slotId.Some? || i in ObservationExclusions(schedule, events, observations[i := o])
  }

  lemma AssignIgnoresAnnotation(o: Observation, slots: seq<AlignedSlot>, slotId: Option<string>,
                                antenna: Option<string>, confidence: Option<real>)
    ensures Assign(WithAnnotation(o, slotId, antenna, confidence), slots, BOUNDARY_SECONDS)
            == Assign(o, slots, BOUNDARY_SECONDS)
  {
  }

  lemma IncludedWithAnnotation(schedule: Schedule, events: seq<LegacyEvent>, observations: seq<Observation>, i: nat,
                               slotId: Option<string>, antenna: Option<string>, confidence: Option<real>)
    requires i < |observations|
    ensures var ids := ObservationIds(observations);
            var a := Assign(observations[i], AlignSlots(schedule, events), BOUNDARY_SECONDS);
            var o := WithAnnotation(observations[i], slotId, antenna, confidence);
            i !in ObservationExclusions(schedule, events, observations[i := o]) <==>
              ThirdAt(ids, i) || (OnceAt(ids, i) && !Mismatched(o, a))
  {
    hide ObservationExclusions, Mismatched, ThirdAt, OnceAt, Assign, AlignSlots;
    var o := WithAnnotation(observations[i], slotId, antenna, confidence);
    IncludedIffOwnOrThird(schedule, events, observations[i := o], i);
    assert ObservationIds(observations[i := o]) == ObservationIds(observations);
    AssignIgnoresAnnotation(observations[i], AlignSlots(schedule, events), slotId, antenna, confidence);
  }

  /**
   An included observation is sure to store a slot exactly if its id has not come twice before and, where it is the only
   one with its id, the first planned slot that covers it is on its band.
   */
  lemma SlotIsStoredIff(schedule: Schedule, events: seq<LegacyEvent>, observations: seq<Observation>, i: nat)
    requires i < |observations|
    ensures var ids := ObservationIds(observations);
            MustStoreASlot(schedule, events, observations, i) <==>
              !ThirdAt(ids, i) && (OnceAt(ids, i) ==> FirstIsOnBand(schedule.slots, observations[i]))
  {
    var ids := ObservationIds(observations);
    var a := Assign(observations[i], AlignSlots(schedule, events), BOUNDARY_SECONDS);
    AssignedIsFirstPlanned(observations[i], schedule, events);
    hide Assign, AlignSlots, FirstIsOnBand, ObservationExclusions, ThirdAt, OnceAt;
    forall slotId, antenna, confidence
      ensures var o := WithAnnotation(observations[i], slotId, antenna, confidence);
              i !in ObservationExclusions(schedule, events, observations[i := o]) <==>
                ThirdAt(ids, i) || (OnceAt(ids, i) && !Mismatched(o, a))
    {
      IncludedWithAnnotation(schedule, events, observations, i, slotId, antenna, confidence);
    }
    if MustStoreASlot(schedule, events, observations, i) {
      var o := WithAnnotation(observations[i], None, None, Some(a.confidence));
      assert i in ObservationExclusions(schedule, events, observations[i := o]);
    }
  }

  /** An included observation whose id has not come twice before stores exactly the slot it was assigned. */
  lemma IncludedStoresItsSlot(schedule: Schedule, events: seq<LegacyEvent>, observations: seq<Observation>, i: nat)
    requires i < |observations| && i !in ObservationExclusions(schedule, events, observations)
    ensures !ThirdAt(ObservationIds(observations), i) ==>
              observations[i].slotId == Assign(observations[i], AlignSlots(schedule, events), BOUNDARY_SECONDS).slotId
  {
    IncludedIffOwnOrThird(schedule, events, observations, i);
  }

  // ----- rows -----

  /** No observation has the id after two others. */
  ghost predicate NeverThird(observations: seq<Observation>, id: string) {
    forall i :: 0 <= i < |observations| && observations[i].observationId == id ==>
      !ThirdAt(ObservationIds(observations), i)
  }

  lemma ClassifiedAs(schedule: Schedule, events: seq<LegacyEvent>, o: Observation, planned: Option<Exclusion>)
    requires SwitchesLabelled(events) || !IsV2(schedule)
    ensures var c := ClassifyOne(schedule, events, o, planned);
            && c.observation == o && c.assignment == Assign(o, AlignSlots(schedule, events), BOUNDARY_SECONDS)
            && (planned.Some? ==> c.disposition.Excluded?)
  {
    hide Assign, Classify, AlignSlots;
  }

  /** The observation stores a slot, and it lies in the block. */
  predicate StoresASlotOf(blocks: seq<Block>, o: Observation, block: nat) {
    o.slotId.Some? && BlockOf(blocks, o.slotId.value) == Some(block)
  }

  lemma {:induction false} PlacedStoresASlot(ctx: Context, schedule: Schedule, events: seq<LegacyEvent>, kept: Schedule,
                                             keptEvents: seq<LegacyEvent>, observations: seq<Observation>,
                                             planned: map<nat, Exclusion>, k: GroupKey, side: Side, o: Observation)
    requires SwitchesLabelled(keptEvents) || !IsV2(kept)
    requires ObservationExclusions(schedule, events, observations) <= planned.Keys
    requires NeverThird(observations, o.observationId)
    ensures o in Placed(ctx, ClassifyAll(kept, keptEvents, observations, planned), k, side) ==>
              && FirstIsOnBand(kept.slots, o)
              && (o.slotId.Some? <==> FirstIsOnBand(schedule.slots, o))
              && (FirstPlanned(schedule.slots, o.timestamp) == FirstPlanned(kept.slots, o.timestamp) ==>
                    StoresASlotOf(ctx.blocks, o, k.block))
  {
    hide Placed, Placement, ObservationExclusions, ClassifyOne, Assign, AlignSlots, BlockOf, PathKeyOf, FirstPlanned,
         SwitchesLabelled, ThirdAt;
    var cs := ClassifyAll(kept, keptEvents, observations, planned);
    if o in Placed(ctx, cs, k, side) {
      ComparisonOrder.PlacedFrom(ctx, cs, k, side, o);
      var c :| c in cs && c.observation == o && Placement(ctx, c) == Some((k, side));
      var i :| 0 <= i < |cs| && cs[i] == c;
      ClassifiedAs(kept, keptEvents, observations[i], if i in planned then Some(planned[i]) else None);
      PlacementSays(ctx, c, k, side);
      IncludedStoresItsSlot(schedule, events, observations, i);
      AssignedIsFirstPlanned(o, schedule, events);
      AssignedIsFirstPlanned(o, kept, keptEvents);
    }
  }

  /**
   With annotation mismatches and repeated ids excluded, whatever slots and events are left out besides, an observation
   of a row stores a slot exactly if the first planned slot that covers it is on its band, unless its id comes three
   times; the slot lies in the row's block if no earlier slot was left out.
   */
  lemma RowsHaveStoredSlots(ctx: Context, schedule: Schedule, events: seq<LegacyEvent>, kept: Schedule,
                            keptEvents: seq<LegacyEvent>, observations: seq<Observation>,
                            planned: map<nat, Exclusion>, k: GroupKey, side: Side)
    requires SwitchesLabelled(keptEvents) || !IsV2(kept)
    requires ObservationExclusions(schedule, events, observations) <= planned.Keys
    ensures var rows := RowsOf(ctx.blocks, Groups(ctx, ClassifyAll(kept, keptEvents, observations, planned)));
            k in rows ==>
              var o := if side == Left then rows[k].left else rows[k].right;
              NeverThird(observations, o.observationId) ==>
                && (o.slotId.Some? <==> FirstIsOnBand(schedule.slots, o))
                && (FirstPlanned(schedule.slots, o.timestamp) == FirstPlanned(kept.slots, o.timestamp) ==>
                      StoresASlotOf(ctx.blocks, o, k.block))
  {
    var cs := ClassifyAll(kept, keptEvents, observations, planned);
    var rows := RowsOf(ctx.blocks, Groups(ctx, cs));
    RowIsPlaced(ctx, cs, k);
    hide RowsOf, Groups, Placed, ClassifyAll, SwitchesLabelled, NeverThird, StoresASlotOf, FirstIsOnBand,
         ObservationExclusions;
    if k in rows {
      var o := if side == Left then rows[k].left else rows[k].right;
      if NeverThird(observations, o.observationId) {
        PlacedStoresASlot(ctx, schedule, events, kept, keptEvents, observations, planned, k, side, o);
      }
    }
  }

  // ----- schedules without clashes -----

  lemma {:induction false} NoClashBelow(slots: seq<PlannedSlot>, n: nat, i: nat)
    requires 0 < i < n <= |slots| && WindowExclusions(slots, n) == {}
    ensures !Clash(slots[i - 1], slots[i])
  {
    assert FirstAt(SlotIds(slots), slots[n - 2].slotId) in PositionsOf(slots, slots[n - 2], slots[n - 1]);
    if i < n - 1 {
      NoClashBelow(slots, n - 1, i);
    }
  }

  lemma {:induction false} LaterStartsAfter(slots: seq<PlannedSlot>, i: nat, j: nat)
    requires i < j < |slots| && WindowExclusions(slots, |slots|) == {}
    ensures SlotEnd(slots[i]) <= slots[j].startsAt
  {
    NoClashBelow(slots, |slots|, j);
    if i < j - 1 {
      LaterStartsAfter(slots, i, j - 1);
    }
  }

  lemma {:induction false} CleanSlotsKeepTheFirst(slots: seq<PlannedSlot>, excluded: set<nat>, at: Instant)
    requires WindowExclusions(slots, |slots|) == {}
    ensures FirstPlanned(KeptSlots(slots, excluded), at).Some? ==>
              FirstPlanned(slots, at) == FirstPlanned(KeptSlots(slots, excluded), at)
  {
    hide KeptSlots, FirstPlanned, WindowExclusions;
    var found := FirstPlanned(KeptSlots(slots, excluded), at);
    if found.Some? {
      KeptSlotsAreSlots(slots, excluded, found.value);
      var i :| 0 <= i < |slots| && slots[i] == found.value;
      var first := FirstPlanned(slots, at).value;
      var j :| 0 <= j < |slots| && slots[j] == first;
      if i < j {
        LaterStartsAfter(slots, i, j);
      } else if j < i {
        LaterStartsAfter(slots, j, i);
      }
    }
  }

  /** If validation reports no clash of windows, every row's observations store slots of the row's block. */
  lemma {:induction false} CleanSchedulesStoreTheirSlots(ctx: Context, schedule: Schedule, events: seq<LegacyEvent>,
                                                         excluded: set<nat>, keptEvents: seq<LegacyEvent>,
                                                         observations: seq<Observation>, planned: map<nat, Exclusion>,
                                                         k: GroupKey, side: Side)
    requires SwitchesLabelled(keptEvents) || !IsV2(schedule)
    requires ObservationExclusions(schedule, events, observations) <= planned.Keys
    requires WindowExclusions(schedule.slots, |schedule.slots|) == {}
    ensures var kept := schedule.(slots := KeptSlots(schedule.slots, excluded));
            var rows := RowsOf(ctx.blocks, Groups(ctx, ClassifyAll(kept, keptEvents, observations, planned)));
            k in rows ==>
              var o := if side == Left then rows[k].left else rows[k].right;
              NeverThird(observations, o.observationId) ==> StoresASlotOf(ctx.blocks, o, k.block)
  {
    var kept := schedule.(slots := KeptSlots(schedule.slots, excluded));
    var cs := ClassifyAll(kept, keptEvents, observations, planned);
    var rows := RowsOf(ctx.blocks, Groups(ctx, cs));
    RowIsPlaced(ctx, cs, k);
    hide RowsOf, Groups, Placed, ClassifyAll, SwitchesLabelled, NeverThird, StoresASlotOf, ObservationExclusions,
         KeptSlots, FirstPlanned, WindowExclusions;
    if k in rows {
      var o := if side == Left then rows[k].left else rows[k].right;
      if NeverThird(observations, o.observationId) {
        PlacedStoresASlot(ctx, schedule, events, kept, keptEvents, observations, planned, k, side, o);
        CleanSlotsKeepTheFirst(schedule.slots, excluded, o.timestamp);
      }
    }
  }
}
