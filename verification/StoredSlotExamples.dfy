/** Two sessions in which a paired row holds an observation that stores no slot. */
module StoredSlotExamples {
  import opened Prelude
  import opened Records
  import opened Alignment
  import opened Attribution
  import opened ComparisonBlocks
  import opened Comparison
  import opened PairedEvidence
  import opened Eligibility
  import opened StoredSlots

  // ----- one observation on each side makes a row -----

  lemma {:induction false} PlacedNext(ctx: Context, cs: seq<Classified>, c: Classified, k: GroupKey, side: Side)
    ensures Placed(ctx, cs + [c], k, side)
            == Placed(ctx, cs, k, side) + (if Placement(ctx, c) == Some((k, side)) then [c.observation] else [])
  {
    hide Placement;
    assert (cs + [c])[..|cs|] == cs;
  }

  lemma {:induction false} NothingPlaced(ctx: Context, cs: seq<Classified>, k: GroupKey, side: Side)
    requires forall c :: c in cs ==> c.disposition.Excluded?
    ensures Placed(ctx, cs, k, side) == []
  {
    hide PathKeyOf, BlockOf;
    if cs != [] {
      assert cs[|cs| - 1] in cs;
      NothingPlaced(ctx, cs[..|cs| - 1], k, side);
    }
  }

  lemma {:induction false} SidesMakeARow(ctx: Context, cs: seq<Classified>, k: GroupKey, left: Observation,
                                         right: Observation)
    requires Placed(ctx, cs, k, Left) == [left] && Placed(ctx, cs, k, Right) == [right]
    requires k in KeysOf(ctx, cs) && HasFiniteSnr(left) && HasFiniteSnr(right) && OrderAt(ctx.blocks, k.block).Some?
    ensures var rows := RowsOf(ctx.blocks, Groups(ctx, cs));
            k in rows && rows[k].left == left && rows[k].right == right
  {
    hide Placed, KeysOf, OrderAt;
    assert Resolve([left]).finite == Some(left) && Resolve([right]).finite == Some(right);
  }

  lemma TwoMakeARow(ctx: Context, before: seq<Classified>, a: Classified, b: Classified, k: GroupKey)
    requires forall c :: c in before ==> c.disposition.Excluded?
    requires Placement(ctx, a) == Some((k, Left)) && Placement(ctx, b) == Some((k, Right))
    requires HasFiniteSnr(a.observation) && HasFiniteSnr(b.observation) && OrderAt(ctx.blocks, k.block).Some?
    ensures var rows := RowsOf(ctx.blocks, Groups(ctx, before + [a] + [b]));
            k in rows && rows[k].left == a.observation && rows[k].right == b.observation
  {
    hide Placement, Placed, RowsOf, Groups, OrderAt;
    NothingPlaced(ctx, before, k, Left);
    NothingPlaced(ctx, before, k, Right);
    PlacedNext(ctx, before, a, k, Left);
    PlacedNext(ctx, before, a, k, Right);
    PlacedNext(ctx, before + [a], b, k, Left);
    PlacedNext(ctx, before + [a], b, k, Right);
    assert a in before + [a] + [b];
    SidesMakeARow(ctx, before + [a] + [b], k, a.observation, b.observation);
  }

  lemma PlacementOf(ctx: Context, c: Classified, block: nat, path: PathKey, side: Side)
    requires c.disposition == Usable && c.assignment.slotId.Some? && ctx.left != ctx.right
    requires BlockOf(ctx.blocks, c.assignment.slotId.value) == Some(block)
    requires ctx.blocks[block].eligibility == Eligible && PathKeyOf(ctx.callsign, c.observation) == Some(path)
    requires c.assignment.slotLabel == Some(if side == Left then ctx.left else ctx.right)
    ensures Placement(ctx, c) == Some((GroupKey(path, block), side))
  {
    hide BlockOf, PathKeyOf;
  }

  /** Two slots on one band, in sequence, with the two labels are one eligible block. */
  lemma TwoSlotsAreABlock(callsign: string, a: AlignedSlot, b: AlignedSlot, left: string, right: string)
    requires a.sequenceNumber < b.sequenceNumber && a.band == b.band && left != right
    requires a.actualLabel == Some(left) && b.actualLabel == Some(right)
    ensures var block := Block(0, a.band, a, Some(b), Some(LeftThenRight), Eligible);
            ContextOf(callsign, [a, b], left, right) == Context(callsign, [block], left, right)
  {
    assert [a, b][..1] == [a] && [a][..0] == [];
    assert InSequence([a]) == [a];
    assert [a][1..] == [];
    assert InsertSlot([a], b) == [a] + InsertSlot([], b);
    assert InSequence([a, b]) == [a, b];
    hide InSequence, InsertSlot;
    assert [a, b][2..] == [];
    assert BlocksFrom([a, b], 0, false, left, right) == [MakeBlock(0, a, Some(b), false, left, right)];
  }

  // ----- the sessions -----

  const LONG: PlannedSlot := PlannedSlot("long", 1, 0, 1000, 0, M40, "A")
  const MIDDLE: PlannedSlot := PlannedSlot("middle", 2, 5 * SECOND, 15, 0, M40, "B")
  const SHORT: PlannedSlot := PlannedSlot("short", 3, 30 * SECOND, 130, 0, M20, "A")
  const NEXT: PlannedSlot := PlannedSlot("next", 4, 170 * SECOND, 130, 0, M20, "B")

  function Confirmed(slot: PlannedSlot): LegacyEvent {
    LegacyEvent(LegacyMeta(SCHEMA_V2, "session", slot.startsAt, Operator), slot.slotId, Some(slot.slotId), Switched,
                None, Some(slot.antennaLabel))
  }

  const SWITCHES: seq<LegacyEvent> := [Confirmed(SHORT), Confirmed(NEXT)]

  function Of(slots: seq<PlannedSlot>): Schedule {
    Schedule(SCHEMA_V2, WholeStationAb, slots)
  }

  /** A report of the station's signal that stores no slot. */
  function Report(id: string, at: Instant): Observation {
    Observation(id, at, WsprLive, PublicReport, M20, Some("W"), Some("R"), Some("K"), None, None, None, None,
                Some(Finite(-10.0, false)), None, None, Some(0.0))
  }

  /** The same report with the annotation of a slot it is well inside. */
  function Annotated(o: Observation, slot: PlannedSlot): Observation {
    WithAnnotation(o, Some(slot.slotId), Some(slot.antennaLabel), Some(0.95))
  }

  const PATH: PathKey := PathKey(Stratum(Transmit, M20, "W", PublicReport, WsprLive), "R")

  const CONTEXT: Context := ContextOf("K", AlignSlots(Of([SHORT, NEXT]), SWITCHES), "A", "B")

  lemma SwitchesNameTheirSlots(slot: PlannedSlot)
    requires slot == SHORT || slot == NEXT
    ensures Naming(SWITCHES, slot.slotId) == [Confirmed(slot)]
  {
    assert SWITCHES[1..] == [Confirmed(NEXT)] && SWITCHES[1..][1..] == [];
    assert Naming([], slot.slotId) == [];
  }

  /** Both slots were established in time. */
  lemma SlotsAreAligned(slot: PlannedSlot)
    requires slot == SHORT || slot == NEXT
    ensures var a := AlignSlot(slot, SWITCHES, true);
            && a.slotId == slot.slotId && a.sequenceNumber == slot.sequenceNumber && a.band == slot.band
            && a.status == InTime && a.actualLabel == Some(slot.antennaLabel)
            && a.startsAt == a.usableStart == slot.startsAt && a.endsAt == SlotEnd(slot)
  {
    SwitchesNameTheirSlots(slot);
    var e := Confirmed(slot);
    assert [e][1..] == [];
    assert OfType([e], Switched) == [e];
    assert OfType([e], BadSlot) == OfType([], BadSlot) && OfType([e], MissedSlot) == OfType([], MissedSlot);
    assert Earliest([e]) == e;
  }

  lemma SlotsAreOneBlock()
    ensures |CONTEXT.blocks| == 1 && CONTEXT.blocks[0].eligibility == Eligible
    ensures OrderAt(CONTEXT.blocks, 0).Some?
    ensures CONTEXT.callsign == "K" && CONTEXT.left == "A" && CONTEXT.right == "B"
    ensures BlockOf(CONTEXT.blocks, "short") == Some(0) && BlockOf(CONTEXT.blocks, "next") == Some(0)
  {
    SlotsAreAligned(SHORT);
    SlotsAreAligned(NEXT);
    hide AlignSlot, ContextOf;
    var a, b := AlignSlot(SHORT, SWITCHES, true), AlignSlot(NEXT, SWITCHES, true);
    assert AlignSlots(Of([SHORT, NEXT]), SWITCHES) == [a, b];
    TwoSlotsAreABlock("K", a, b, "A", "B");
    hide AlignSlots;
    OnlyBlock(Block(0, M20, a, Some(b), Some(LeftThenRight), Eligible));
  }

  lemma OnlyBlock(block: Block)
    requires block.second.Some?
    ensures BlockOf([block], block.first.slotId) == Some(0) && BlockOf([block], block.second.value.slotId) == Some(0)
  {
  }

  /** Well inside either slot a report is usable on the slot's antenna. */
  lemma InsideIsUsable(o: Observation, slot: PlannedSlot)
    requires slot == SHORT || slot == NEXT
    requires o.band == M20 && slot.startsAt <= o.timestamp <= slot.startsAt + 100 * SECOND
    ensures Assign(o, AlignSlots(Of([SHORT, NEXT]), SWITCHES), BOUNDARY_SECONDS)
            == Assignment(o.observationId, Some(slot.slotId), Some(slot.antennaLabel), 0.95, Interior)
  {
    SlotsAreAligned(SHORT);
    SlotsAreAligned(NEXT);
    var slots := AlignSlots(Of([SHORT, NEXT]), SWITCHES);
    var a, b := AlignSlot(SHORT, SWITCHES, true), AlignSlot(NEXT, SWITCHES, true);
    hide AlignSlot;
    assert slots == [a, b] && slots[1..] == [b];
    assert FirstCovering(slots, o.timestamp) == Some(if slot == SHORT then a else b);
    hide AlignSlots, FirstCovering, NumSeconds;
    EstablishedInside(o, slots);
  }

  lemma {:induction false} EstablishedInside(o: Observation, slots: seq<AlignedSlot>)
    requires FirstCovering(slots, o.timestamp).Some?
    ensures var slot := FirstCovering(slots, o.timestamp).value;
            slot.band == o.band && slot.status == InTime && slot.usableStart <= o.timestamp
            && slot.endsAt - o.timestamp >= 10 * SECOND ==>
              Assign(o, slots, BOUNDARY_SECONDS)
              == Assignment(o.observationId, Some(slot.slotId), slot.actualLabel, 0.95, Interior)
  {
    hide FirstCovering;
  }

  predicate OnThePath(o: Observation) {
    && o.mode == Some("W") && o.reporterCall == Some("R") && o.heardCall == Some("K")
    && o.band == M20 && o.kind == PublicReport && o.source == WsprLive
  }

  lemma ReportsAreOnThePath(o: Observation)
    requires OnThePath(o)
    ensures PathKeyOf("K", o) == Some(PATH)
  {
    forall s | s in ["W", "R", "K"]
      ensures Trim(s) == s && AsciiUpper(s) == s
    {
    }
    assert NormalizeMode("W") == Some("W");
    assert AsciiUpper("R")[0] != AsciiUpper("K")[0];
  }

  lemma SeatedInTheBlock(o: Observation, slot: PlannedSlot)
    requires slot == SHORT || slot == NEXT
    requires OnThePath(o)
    requires slot.startsAt <= o.timestamp <= slot.startsAt + 100 * SECOND
    requires SwitchesLabelled(SWITCHES)
    ensures Placement(CONTEXT, ClassifyOne(Of([SHORT, NEXT]), SWITCHES, o, None))
            == Some((GroupKey(PATH, 0), if slot == SHORT then Left else Right))
  {
    hide PathKeyOf, BlockOf, Assign, AlignSlots, ContextOf, Placement, OrderAt, SwitchesLabelled;
    InsideIsUsable(o, slot);
    ReportsAreOnThePath(o);
    SlotsAreOneBlock();
    var c := ClassifyOne(Of([SHORT, NEXT]), SWITCHES, o, None);
    assert c.disposition == Usable;
    hide ClassifyOne;
    PlacementOf(CONTEXT, c, 0, PATH, if slot == SHORT then Left else Right);
  }

  /** The rows of the two kept slots. */
  function Rows(observations: seq<Observation>, planned: map<nat, Exclusion>): map<GroupKey, PairedRow>
    requires SwitchesLabelled(SWITCHES)
  {
    RowsOf(CONTEXT.blocks, Groups(CONTEXT, ClassifyAll(Of([SHORT, NEXT]), SWITCHES, observations, planned)))
  }

  lemma UncoveredStoreNothing(o: Observation)
    requires OnThePath(o) && 20 * SECOND <= o.timestamp < 1000 * SECOND
    requires o.slotId.None? && o.slotLabel.None? && o.slotConfidence == Some(0.0)
    ensures !Mismatched(o, Assign(o, AlignSlots(Of([LONG, MIDDLE, SHORT, NEXT]), SWITCHES), BOUNDARY_SECONDS))
  {
    var slots := [LONG, MIDDLE, SHORT, NEXT];
    assert FirstPlanned(slots, o.timestamp) == Some(LONG);
    AssignedIsFirstPlanned(o, Of(slots), SWITCHES);
  }

  lemma OnlyTheNeighboursClash()
    ensures SlotExclusions([LONG, MIDDLE, SHORT, NEXT], {"A", "B"}) == {0, 1}
  {
    var slots := [LONG, MIDDLE, SHORT, NEXT];
    var ids := SlotIds(slots);
    assert ids == ["long", "middle", "short", "next"];
    assert FirstAt(ids, "long") == 0;
    assert FirstAt(ids, "middle") == 1;
    hide FirstAt;
    assert WindowExclusions(slots, 1) == {};
    assert WindowExclusions(slots, 2) == {0, 1};
    assert WindowExclusions(slots, 3) == {0, 1};
    assert WindowExclusions(slots, 4) == {0, 1};
    hide WindowExclusions;
    assert Duplicates(ids) == {};
    assert UnknownAntennas(slots, {"A", "B"}) == {};
    assert MalformedSlots(slots) == {};
  }

  lemma TheOthersAreKept()
    ensures KeptSlots([LONG, MIDDLE, SHORT, NEXT], {0, 1}) == [SHORT, NEXT]
    ensures KeptEvents(SWITCHES, {}, [SHORT, NEXT]) == SWITCHES
  {
    var slots := [LONG, MIDDLE, SHORT, NEXT];
    assert KeptSlots(slots[..1], {0, 1}) == KeptSlots(slots[..1][..0], {0, 1}) == [];
    assert slots[..2][..1] == slots[..1] && slots[..3][..2] == slots[..2];
    assert KeptSlots(slots[..2], {0, 1}) == [];
    assert KeptSlots(slots[..3], {0, 1}) == [SHORT];
    hide KeptSlots;
    var ids := SlotIds([SHORT, NEXT]);
    assert ids == ["short", "next"];
    assert ids[0] in ids && ids[1] in ids;
    assert SWITCHES[..1][..0] == [];
    assert KeptEvents(SWITCHES[..1], {}, [SHORT, NEXT]) == [Confirmed(SHORT)];
  }

  /** A usable report in the first slot and one in the second make a row of their path. */
  lemma TwoReportsMakeARow(before: seq<Classified>, a: Observation, b: Observation)
    requires SwitchesLabelled(SWITCHES) && OnThePath(a) && OnThePath(b) && HasFiniteSnr(a) && HasFiniteSnr(b)
    requires SHORT.startsAt <= a.timestamp <= SHORT.startsAt + 100 * SECOND
    requires NEXT.startsAt <= b.timestamp <= NEXT.startsAt + 100 * SECOND
    requires forall c :: c in before ==> c.disposition.Excluded?
    ensures var cs := before + [ClassifyOne(Of([SHORT, NEXT]), SWITCHES, a, None)]
                      + [ClassifyOne(Of([SHORT, NEXT]), SWITCHES, b, None)];
            var rows := RowsOf(CONTEXT.blocks, Groups(CONTEXT, cs));
            GroupKey(PATH, 0) in rows && rows[GroupKey(PATH, 0)].left == a && rows[GroupKey(PATH, 0)].right == b
  {
    hide ClassifyOne, Placement, ContextOf, Placed, RowsOf, Groups, SwitchesLabelled, OnThePath, OrderAt, BlockOf;
    SeatedInTheBlock(a, SHORT);
    SeatedInTheBlock(b, NEXT);
    ClassifiedAs(Of([SHORT, NEXT]), SWITCHES, a, None);
    ClassifiedAs(Of([SHORT, NEXT]), SWITCHES, b, None);
    SlotsAreOneBlock();
    TwoMakeARow(CONTEXT, before, ClassifyOne(Of([SHORT, NEXT]), SWITCHES, a, None),
                ClassifyOne(Of([SHORT, NEXT]), SWITCHES, b, None), GroupKey(PATH, 0));
  }

  lemma {:induction false} ExclusionsArePositions(schedule: Schedule, events: seq<LegacyEvent>,
                                                  observations: seq<Observation>)
    ensures forall p :: p in ObservationExclusions(schedule, events, observations) ==> p < |observations|
  {
    hide Mismatched, Assign, AlignSlots;
    var ids := ObservationIds(observations);
    assert forall i :: 0 <= i < |observations| ==> observations[i].observationId == ids[i];
  }

  lemma ReportsOutsideTheirBandStay(a: Observation, b: Observation)
    requires a == Report("a", 60 * SECOND) && b == Report("b", 200 * SECOND)
    ensures ObservationExclusions(Of([LONG, MIDDLE, SHORT, NEXT]), SWITCHES, [a, b]) == {}
  {
    var schedule := Of([LONG, MIDDLE, SHORT, NEXT]);
    UncoveredStoreNothing(a);
    UncoveredStoreNothing(b);
    hide Mismatched, Assign, AlignSlots, ObservationExclusions;
    var ids := ObservationIds([a, b]);
    assert ids == ["a", "b"];
    IncludedIffOwnOrThird(schedule, SWITCHES, [a, b], 0);
    IncludedIffOwnOrThird(schedule, SWITCHES, [a, b], 1);
    ExclusionsArePositions(schedule, SWITCHES, [a, b]);
  }

  lemma TheThirdStays(a: Observation, b: Observation)
    requires a == Report("a", 60 * SECOND) && b == Annotated(Report("b", 200 * SECOND), NEXT)
    ensures ObservationExclusions(Of([SHORT, NEXT]), SWITCHES, [a, a, a, b]) == {0, 1}
  {
    InsideIsUsable(b, NEXT);
    assert !Mismatched(b, Assign(b, AlignSlots(Of([SHORT, NEXT]), SWITCHES), BOUNDARY_SECONDS)) by {
      hide Assign, AlignSlots;
    }
    hide Mismatched, Assign, AlignSlots, ObservationExclusions;
    OnlyTheThirdStays(Of([SHORT, NEXT]), SWITCHES, a, b);
  }

  lemma OnlyTheThirdStays(schedule: Schedule, events: seq<LegacyEvent>, a: Observation, b: Observation)
    requires a.observationId != b.observationId
    requires !Mismatched(b, Assign(b, AlignSlots(schedule, events), BOUNDARY_SECONDS))
    ensures ObservationExclusions(schedule, events, [a, a, a, b]) == {0, 1}
  {
    hide Mismatched, Assign, AlignSlots, ObservationExclusions;
    var observations := [a, a, a, b];
    var ids := ObservationIds(observations);
    assert ids == [a.observationId, a.observationId, a.observationId, b.observationId];
    assert ids[0] == ids[1] == ids[2];
    IncludedIffOwnOrThird(schedule, events, observations, 0);
    IncludedIffOwnOrThird(schedule, events, observations, 1);
    IncludedIffOwnOrThird(schedule, events, observations, 2);
    IncludedIffOwnOrThird(schedule, events, observations, 3);
    ExclusionsArePositions(schedule, events, observations);
  }

  lemma SwitchesCarryLabels()
    ensures SwitchesLabelled(SWITCHES)
  {
  }

  lemma ClassifyTwo(schedule: Schedule, events: seq<LegacyEvent>, a: Observation, b: Observation)
    requires SwitchesLabelled(events)
    ensures ClassifyAll(schedule, events, [a, b], map[])
            == [] + [ClassifyOne(schedule, events, a, None)] + [ClassifyOne(schedule, events, b, None)]
  {
    hide ClassifyOne, SwitchesLabelled;
  }

  lemma ClassifyFour(schedule: Schedule, events: seq<LegacyEvent>, a: Observation, b: Observation,
                     planned: map<nat, Exclusion>)
    requires SwitchesLabelled(events) && planned == map[0 := DuplicateEvidence, 1 := DuplicateEvidence]
    ensures var out := ClassifyOne(schedule, events, a, Some(DuplicateEvidence));
            && ClassifyAll(schedule, events, [a, a, a, b], planned)
               == [out, out] + [ClassifyOne(schedule, events, a, None)] + [ClassifyOne(schedule, events, b, None)]
            && out.disposition.Excluded?
  {
    ClassifiedAs(schedule, events, a, Some(DuplicateEvidence));
    hide ClassifyOne, SwitchesLabelled;
  }

  lemma TwoReportsAreARow()
    requires SwitchesLabelled(SWITCHES)
    ensures var a, b := Report("a", 60 * SECOND), Report("b", 200 * SECOND);
            var rows := Rows([a, b], map[]);
            GroupKey(PATH, 0) in rows && rows[GroupKey(PATH, 0)].left == a && rows[GroupKey(PATH, 0)].right == b
  {
    hide ClassifyAll, ClassifyOne, RowsOf, Groups, SwitchesLabelled, ContextOf;
    TwoReportsMakeARow([], Report("a", 60 * SECOND), Report("b", 200 * SECOND));
    ClassifyTwo(Of([SHORT, NEXT]), SWITCHES, Report("a", 60 * SECOND), Report("b", 200 * SECOND));
  }

  lemma ThirdReportIsInARow()
    requires SwitchesLabelled(SWITCHES)
    ensures var a, b := Report("a", 60 * SECOND), Annotated(Report("b", 200 * SECOND), NEXT);
            var rows := Rows([a, a, a, b], map[0 := DuplicateEvidence, 1 := DuplicateEvidence]);
            GroupKey(PATH, 0) in rows && rows[GroupKey(PATH, 0)].left == a && rows[GroupKey(PATH, 0)].right == b
  {
    hide ClassifyAll, ClassifyOne, RowsOf, Groups, SwitchesLabelled, ContextOf;
    var a, b := Report("a", 60 * SECOND), Annotated(Report("b", 200 * SECOND), NEXT);
    ClassifyFour(Of([SHORT, NEXT]), SWITCHES, a, b, map[0 := DuplicateEvidence, 1 := DuplicateEvidence]);
    var out := ClassifyOne(Of([SHORT, NEXT]), SWITCHES, a, Some(DuplicateEvidence));
    TwoReportsMakeARow([out, out], a, b);
  }

  /**
   Overlapping neighbours are left out, and with them the slot that covered both reports on another band.  Now they are
   usable and make a row, but store no slot, just as the alignment with the whole schedule says.
   */
  lemma OverlapCanLeaveNoStoredSlot()
    ensures var slots, a, b := [LONG, MIDDLE, SHORT, NEXT], Report("a", 60 * SECOND), Report("b", 200 * SECOND);
            && SlotExclusions(slots, {"A", "B"}) == {0, 1}
            && KeptSlots(slots, {0, 1}) == [SHORT, NEXT] && KeptEvents(SWITCHES, {}, [SHORT, NEXT]) == SWITCHES
            && ObservationExclusions(Of(slots), SWITCHES, [a, b]) == {} && SwitchesLabelled(SWITCHES)
            && GroupKey(PATH, 0) in Rows([a, b], map[])
            && Rows([a, b], map[])[GroupKey(PATH, 0)].left == a && a.slotId.None?
  {
    hide Rows, SwitchesLabelled, ObservationExclusions, SlotExclusions, KeptSlots, KeptEvents;
    OnlyTheNeighboursClash();
    TheOthersAreKept();
    SwitchesCarryLabels();
    ReportsOutsideTheirBandStay(Report("a", 60 * SECOND), Report("b", 200 * SECOND));
    TwoReportsAreARow();
  }

  /**
   Of three observations with one id only the first two are left out.  The third makes a row whatever it stores, also
   where no windows overlap.
   */
  lemma ThirdRepetitionIsNotChecked()
    ensures var a, b := Report("a", 60 * SECOND), Annotated(Report("b", 200 * SECOND), NEXT);
            && SlotExclusions([SHORT, NEXT], {"A", "B"}) == {}
            && ObservationExclusions(Of([SHORT, NEXT]), SWITCHES, [a, a, a, b]) == {0, 1}
            && SwitchesLabelled(SWITCHES)
            && GroupKey(PATH, 0) in Rows([a, a, a, b], map[0 := DuplicateEvidence, 1 := DuplicateEvidence])
            && Rows([a, a, a, b], map[0 := DuplicateEvidence, 1 := DuplicateEvidence])[GroupKey(PATH, 0)].left == a
            && a.slotId.None?
  {
    hide Rows, SwitchesLabelled, ObservationExclusions, SlotExclusions, Annotated;
    CleanSlots();
    SwitchesCarryLabels();
    TheThirdStays(Report("a", 60 * SECOND), Annotated(Report("b", 200 * SECOND), NEXT));
    ThirdReportIsInARow();
  }

  lemma CleanSlots()
    ensures SlotExclusions([SHORT, NEXT], {"A", "B"}) == {}
  {
    var slots := [SHORT, NEXT];
    assert SlotIds(slots) == ["short", "next"];
    assert WindowExclusions(slots, 1) == {};
    assert WindowExclusions(slots, 2) == {};
    assert Duplicates(SlotIds(slots)) == {};
    assert UnknownAntennas(slots, {"A", "B"}) == {};
    assert MalformedSlots(slots) == {};
  }
}
