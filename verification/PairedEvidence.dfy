/** From operator facts to paired rows: what a row says about where its two observations came from. */
module PairedEvidence {
  import opened Prelude
  import opened Records
  import opened Alignment
  import opened Attribution
  import opened ComparisonBlocks
  import opened Comparison
  import ComparisonOrder
  import ComparisonRun

  /**
   Observations with their assignments and dispositions; `planned` holds the exclusions decided by validation,
   by position.
   */
  function ClassifyAll(schedule: Schedule, events: seq<LegacyEvent>, observations: seq<Observation>,
                       planned: map<nat, Exclusion>)
    : (cs: seq<Classified>)
    requires SwitchesLabelled(events) || !IsV2(schedule)
    ensures |cs| == |observations|
  {
    seq(|observations|, i requires 0 <= i < |observations| =>
      ClassifyOne(schedule, events, observations[i], if i in planned then Some(planned[i]) else None))
  }

  function ClassifyOne(schedule: Schedule, events: seq<LegacyEvent>, o: Observation, planned: Option<Exclusion>)
    : Classified
    requires SwitchesLabelled(events) || !IsV2(schedule)
  {
    var a := Assign(o, AlignSlots(schedule, events), BOUNDARY_SECONDS);
    LabelledSwitchesAreClassified(o, schedule, events, BOUNDARY_SECONDS);
    Classified(o, a, if planned.Some? then Excluded(planned.value) else Classify(a).value)
  }

  lemma PlacementSays(ctx: Context, c: Classified, k: GroupKey, side: Side)
    requires Placement(ctx, c) == Some((k, side))
    ensures c.disposition == Usable && c.assignment.slotId.Some?
    ensures BlockOf(ctx.blocks, c.assignment.slotId.value) == Some(k.block)
    ensures c.assignment.slotLabel == Some(if side == Left then ctx.left else ctx.right)
    ensures PathKeyOf(ctx.callsign, c.observation) == Some(k.on)
  {
    hide BlockOf, PathKeyOf;
  }

  /**
   An observation on one side of a group fell well inside a slot of the group's block, after that side's antenna was
   confirmed.
   */
  ghost predicate Attributed(ctx: Context, schedule: Schedule, events: seq<LegacyEvent>, k: GroupKey, side: Side,
                             o: Observation) {
    var slots := AlignSlots(schedule, events);
    var slot := FirstCovering(slots, o.timestamp);
    var antenna := if side == Left then ctx.left else ctx.right;
    && PathKeyOf(ctx.callsign, o) == Some(k.on)
    && WellInside(o, slots, BOUNDARY_SECONDS)
    && BlockOf(ctx.blocks, slot.value.slotId) == Some(k.block)
    && slot.value.actualLabel == Some(antenna)
    && ConfirmedBy(events, slot.value.slotId, antenna, o.timestamp)
  }

  lemma ClassifiedUsable(schedule: Schedule, events: seq<LegacyEvent>, o: Observation, planned: Option<Exclusion>)
    requires SwitchesLabelled(events) && IsV2(schedule)
    ensures var c := ClassifyOne(schedule, events, o, planned);
            var slots := AlignSlots(schedule, events);
            && c.observation == o && c.assignment == Assign(o, slots, BOUNDARY_SECONDS)
            && (c.disposition == Usable ==> WellInside(o, slots, BOUNDARY_SECONDS))
  {
    hide WellInside, Assign, Classify, AlignSlots;
    UnreachableIffUnlabelled(o, AlignSlots(schedule, events), BOUNDARY_SECONDS);
    LabelledSwitchesAreClassified(o, schedule, events, BOUNDARY_SECONDS);
  }

  lemma {:induction false} PlacedIsAttributed(ctx: Context, schedule: Schedule, events: seq<LegacyEvent>,
                                              observations: seq<Observation>, planned: map<nat, Exclusion>, k: GroupKey,
                                              side: Side, o: Observation)
    requires SwitchesLabelled(events) && IsV2(schedule)
    ensures o in Placed(ctx, ClassifyAll(schedule, events, observations, planned), k, side) ==>
              Attributed(ctx, schedule, events, k, side, o)
  {
    hide Placed, Placement, WellInside, ConfirmedBy, SwitchesLabelled, ClassifyOne, Assign, AlignSlots, FirstCovering,
         PathKeyOf, BlockOf;
    var cs := ClassifyAll(schedule, events, observations, planned);
    if o in Placed(ctx, cs, k, side) {
      ComparisonOrder.PlacedFrom(ctx, cs, k, side, o);
      var c :| c in cs && c.observation == o && Placement(ctx, c) == Some((k, side));
      var i :| 0 <= i < |cs| && cs[i] == c;
      ClassifiedUsable(schedule, events, observations[i], if i in planned then Some(planned[i]) else None);
      PlacementSays(ctx, c, k, side);
      LabelComesFromCoveringSlot(o, AlignSlots(schedule, events), BOUNDARY_SECONDS);
      LabelsAreConfirmedFirst(o, schedule, events, BOUNDARY_SECONDS);
    }
  }

  /**
   Under schema v2 both observations of every paired row were heard on the row's path, well inside a slot of the row's
   block, after an operator had confirmed for that slot the antenna of the side they stand on.
   */
  lemma PairedRowsAreAttributed(ctx: Context, schedule: Schedule, events: seq<LegacyEvent>,
                                observations: seq<Observation>,
                                planned: map<nat, Exclusion>, k: GroupKey)
    requires SwitchesLabelled(events) && IsV2(schedule)
    ensures var rows := RowsOf(ctx.blocks, Groups(ctx, ClassifyAll(schedule, events, observations, planned)));
            k in rows ==>
              && Attributed(ctx, schedule, events, k, Left, rows[k].left)
              && Attributed(ctx, schedule, events, k, Right, rows[k].right)
              && rows[k].delta == Snr(rows[k].right) - Snr(rows[k].left)
  {
    var cs := ClassifyAll(schedule, events, observations, planned);
    var rows := RowsOf(ctx.blocks, Groups(ctx, cs));
    RowIsPlaced(ctx, cs, k);
    hide RowsOf, Groups, Attributed, Placed, ClassifyAll, SwitchesLabelled;
    if k in rows {
      PlacedIsAttributed(ctx, schedule, events, observations, planned, k, Left, rows[k].left);
      PlacedIsAttributed(ctx, schedule, events, observations, planned, k, Right, rows[k].right);
    }
  }

  lemma {:induction false} RowIsPlaced(ctx: Context, cs: seq<Classified>, k: GroupKey)
    ensures var rows := RowsOf(ctx.blocks, Groups(ctx, cs));
            k in rows ==>
              && rows[k].left in Placed(ctx, cs, k, Left) && rows[k].right in Placed(ctx, cs, k, Right)
              && HasFiniteSnr(rows[k].left) && HasFiniteSnr(rows[k].right)
              && rows[k].delta == Snr(rows[k].right) - Snr(rows[k].left)
  {
    hide Placed, KeysOf, Least, NumSeconds, ExactDuplicates, OrderAt;
  }

  /** The comparison of a schema-v2 session does not depend on the order of its operator facts. */
  lemma ComparisonIgnoresEventOrder(callsign: string, schedule: Schedule, a: seq<LegacyEvent>, b: seq<LegacyEvent>,
                                    observations: seq<Observation>, planned: map<nat, Exclusion>, labels: seq<string>)
    requires IsV2(schedule) && multiset(a) == multiset(b) && SwitchesLabelled(a) && SwitchesLabelled(b)
    ensures ComparisonRun.Compare(callsign, false, labels, AlignSlots(schedule, a),
                                  ClassifyAll(schedule, a, observations, planned))
            == ComparisonRun.Compare(callsign, false, labels, AlignSlots(schedule, b),
                                     ClassifyAll(schedule, b, observations, planned))
  {
    ScheduleAlignmentIgnoresEventOrder(schedule, a, b);
    hide AlignSlots, Assign, Classify, SwitchesLabelled, ComparisonRun.Compare;
    assert ClassifyAll(schedule, a, observations, planned) == ClassifyAll(schedule, b, observations, planned);
  }
}
