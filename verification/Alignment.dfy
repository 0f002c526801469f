/** Aligning planned slots with operator facts, and observations with aligned slots. */
module Alignment {
  import opened Prelude
  import opened Records

  datatype SlotStatus =
    | PlannedNoSwitchEvent | UnknownActualState | InTime | Late | Missed | Bad | ConflictingEvidence

  datatype AlignedSlot = AlignedSlot(
    slotId: string, sequenceNumber: nat, band: Band, plannedLabel: string, actualLabel: Option<string>,
    status: SlotStatus, startsAt: Instant, endsAt: Instant, usableStart: Instant,
    switchEventId: Option<string>, switchTimestamp: Option<Instant>, switchDelaySeconds: Option<int>)

  datatype Reason =
    | Interior | GuardTime | NearBoundary | LateSwitch | BeforeObservedSwitch | InMissedSlot | InBadSlot
    | InUnknownState | InConflict | BandMismatch | OutsideSchedule

  datatype Assignment = Assignment(
    observationId: string, slotId: Option<string>, slotLabel: Option<string>, confidence: real, reason: Reason)

  const BOUNDARY_SECONDS: int := 5

  // ----- aligning one slot -----

  function Naming(events: seq<LegacyEvent>, slotId: string): seq<LegacyEvent> {
    if events == [] then []
    else (if events[0].slotId == Some(slotId) then [events[0]] else []) + Naming(events[1..], slotId)
  }

  function OfType(events: seq<LegacyEvent>, kind: LegacyEventType): seq<LegacyEvent> {
    if events == [] then []
    else (if events[0].eventType == kind then [events[0]] else []) + OfType(events[1..], kind)
  }

  /** The first event with the least timestamp. */
  function Earliest(events: seq<LegacyEvent>): (e: LegacyEvent)
    requires events != []
    ensures e in events
  {
    if |events| == 1 then events[0]
    else
      var rest := Earliest(events[1..]);
      if events[0].meta.timestamp <= rest.meta.timestamp then events[0] else rest
  }

  function Unswitched(slot: PlannedSlot, label_: Option<string>, status: SlotStatus): AlignedSlot {
    var guardEnd := slot.startsAt + slot.guardSeconds * SECOND;
    AlignedSlot(slot.slotId, slot.sequenceNumber, slot.band, slot.antennaLabel, label_, status, slot.startsAt,
                slot.startsAt + slot.durationSeconds * SECOND, guardEnd, None, None, None)
  }

  function AlignSlot(slot: PlannedSlot, events: seq<LegacyEvent>, schemaV2: bool): AlignedSlot {
    var named := Naming(events, slot.slotId);
    var switches := OfType(named, Switched);
    var badCount, missedCount := |OfType(named, BadSlot)|, |OfType(named, MissedSlot)|;
    var guardEnd := slot.startsAt + slot.guardSeconds * SECOND;
    if schemaV2 && |switches| + badCount + missedCount > 1 then Unswitched(slot, None, ConflictingEvidence)
    else if badCount > 0 then Unswitched(slot, None, Bad)
    else if missedCount > 0 then Unswitched(slot, None, Missed)
    else if switches != [] then
      var event := Earliest(switches);
      var at := event.meta.timestamp;
      AlignedSlot(slot.slotId, slot.sequenceNumber, slot.band, slot.antennaLabel,
                  if event.actualAntennaLabel.Some? then event.actualAntennaLabel
                  else if schemaV2 then None else Some(slot.antennaLabel),
                  if at <= guardEnd then InTime else Late,
                  slot.startsAt, slot.startsAt + slot.durationSeconds * SECOND,
                  if guardEnd >= at then guardEnd else at,
                  Some(event.eventId), Some(at), Some(NumSeconds(at - slot.startsAt)))
    else if schemaV2 then Unswitched(slot, None, UnknownActualState)
    else Unswitched(slot, Some(slot.antennaLabel), PlannedNoSwitchEvent)
  }

  predicate IsV2(schedule: Schedule) {
    schedule.schemaVersion >= SCHEMA_V2
  }

  function AlignSlots(schedule: Schedule, events: seq<LegacyEvent>): (slots: seq<AlignedSlot>)
    ensures |slots| == |schedule.slots|
  {
    seq(|schedule.slots|, i requires 0 <= i < |schedule.slots| => AlignSlot(schedule.slots[i], events, IsV2(schedule)))
  }

  // ----- assigning one observation -----

  predicate Covers(slot: AlignedSlot, at: Instant) {
    slot.startsAt <= at < slot.endsAt
  }

  /** The first slot whose window covers the instant. */
  function FirstCovering(slots: seq<AlignedSlot>, at: Instant): (slot: Option<AlignedSlot>)
    ensures slot.Some? ==> slot.value in slots && Covers(slot.value, at)
  {
    if slots == [] then None
    else if Covers(slots[0], at) then Some(slots[0])
    else FirstCovering(slots[1..], at)
  }

  function Assign(observation: Observation, slots: seq<AlignedSlot>, boundarySeconds: int): Assignment {
    var at, id := observation.timestamp, observation.observationId;
    var found := FirstCovering(slots, at);
    if found.None? then Assignment(id, None, None, 0.0, OutsideSchedule)
    else
      var slot := found.value;
      var slotId := Some(slot.slotId);
      if observation.band != slot.band then Assignment(id, None, None, 0.0, BandMismatch)
      else if slot.status == ConflictingEvidence then Assignment(id, slotId, None, 0.0, InConflict)
      else if slot.status == UnknownActualState then Assignment(id, slotId, None, 0.0, InUnknownState)
      else if slot.status == Bad then Assignment(id, slotId, None, 0.0, InBadSlot)
      else if slot.status == Missed then Assignment(id, slotId, None, 0.0, InMissedSlot)
      else if slot.status == Late && at < slot.usableStart then
        Assignment(id, slotId, None, 0.10, BeforeObservedSwitch)
      else if at < slot.usableStart then
        var known := slot.switchTimestamp.Some? && slot.switchTimestamp.value <= at;
        Assignment(id, slotId, if known then slot.actualLabel else None, 0.25, GuardTime)
      else if NumSeconds(slot.endsAt - at) <= boundarySeconds then
        Assignment(id, slotId, slot.actualLabel, 0.60, NearBoundary)
      else
        match slot.status
        case Late => Assignment(id, slotId, slot.actualLabel, 0.70, LateSwitch)
        case PlannedNoSwitchEvent => Assignment(id, slotId, slot.actualLabel, 0.80, Interior)
        case InTime => Assignment(id, slotId, slot.actualLabel, 0.95, Interior)
  }

  function AssignAll(observations: seq<Observation>, slots: seq<AlignedSlot>, boundarySeconds: int)
    : (all: seq<Assignment>)
    ensures |all| == |observations|
  {
    seq(|observations|, i requires 0 <= i < |observations| => Assign(observations[i], slots, boundarySeconds))
  }

  // ----- permutation invariance -----

  lemma {:induction false} NamingCounts(events: seq<LegacyEvent>, slotId: string, e: LegacyEvent)
    ensures multiset(Naming(events, slotId))[e] == if e.slotId == Some(slotId) then multiset(events)[e] else 0
  {
    if events != [] {
      assert events == [events[0]] + events[1..];
      NamingCounts(events[1..], slotId, e);
    }
  }

  lemma {:induction false} OfTypeCounts(events: seq<LegacyEvent>, kind: LegacyEventType, e: LegacyEvent)
    ensures multiset(OfType(events, kind))[e] == if e.eventType == kind then multiset(events)[e] else 0
  {
    if events != [] {
      assert events == [events[0]] + events[1..];
      OfTypeCounts(events[1..], kind, e);
    }
  }

  lemma {:induction false} NamedOfTypePermutes(events: seq<LegacyEvent>, other: seq<LegacyEvent>, slotId: string,
                                               kind: LegacyEventType)
    requires multiset(events) == multiset(other)
    ensures multiset(OfType(Naming(events, slotId), kind)) == multiset(OfType(Naming(other, slotId), kind))
  {
    forall e: LegacyEvent
      ensures multiset(OfType(Naming(events, slotId), kind))[e] == multiset(OfType(Naming(other, slotId), kind))[e]
    {
      NamingCounts(events, slotId, e);
      NamingCounts(other, slotId, e);
      OfTypeCounts(Naming(events, slotId), kind, e);
      OfTypeCounts(Naming(other, slotId), kind, e);
    }
  }

  lemma SameBagSameLength<T>(a: seq<T>, b: seq<T>)
    requires multiset(a) == multiset(b)
    ensures |a| == |b|
    ensures |a| == 1 ==> a == b
  {
    assert |multiset(a)| == |a| && |multiset(b)| == |b|;
    if |a| == 1 {
      assert a[0] in multiset(b);
    }
  }

  /** In schema v2 a slot's alignment does not depend on the order of the events. */
  lemma AlignmentIgnoresEventOrder(slot: PlannedSlot, events: seq<LegacyEvent>, other: seq<LegacyEvent>)
    requires multiset(events) == multiset(other)
    ensures AlignSlot(slot, events, true) == AlignSlot(slot, other, true)
  {
    hide Naming, OfType;
    NamedOfTypePermutes(events, other, slot.slotId, Switched);
    NamedOfTypePermutes(events, other, slot.slotId, BadSlot);
    NamedOfTypePermutes(events, other, slot.slotId, MissedSlot);
    SameBagSameLength(OfType(Naming(events, slot.slotId), Switched), OfType(Naming(other, slot.slotId), Switched));
    SameBagSameLength(OfType(Naming(events, slot.slotId), BadSlot), OfType(Naming(other, slot.slotId), BadSlot));
    SameBagSameLength(OfType(Naming(events, slot.slotId), MissedSlot), OfType(Naming(other, slot.slotId), MissedSlot));
  }

  lemma ScheduleAlignmentIgnoresEventOrder(schedule: Schedule, events: seq<LegacyEvent>, other: seq<LegacyEvent>)
    requires IsV2(schedule) && multiset(events) == multiset(other)
    ensures AlignSlots(schedule, events) == AlignSlots(schedule, other)
  {
    forall i | 0 <= i < |schedule.slots|
      ensures AlignSlot(schedule.slots[i], events, true) == AlignSlot(schedule.slots[i], other, true)
    {
      AlignmentIgnoresEventOrder(schedule.slots[i], events, other);
    }
  }

  // ----- when a slot has an actual label -----

  predicate IsFact(e: LegacyEvent, slotId: string) {
    e.slotId == Some(slotId) && (e.eventType == Switched || e.eventType == BadSlot || e.eventType == MissedSlot)
  }

  /** The slot-state facts naming a slot, in log order. */
  function Facts(events: seq<LegacyEvent>, slotId: string): seq<LegacyEvent> {
    if events == [] then []
    else (if IsFact(events[0], slotId) then [events[0]] else []) + Facts(events[1..], slotId)
  }

  lemma {:induction false} NamedOfTypeCons(events: seq<LegacyEvent>, slotId: string, kind: LegacyEventType)
    requires events != []
    ensures OfType(Naming(events, slotId), kind) ==
              (if events[0].slotId == Some(slotId) && events[0].eventType == kind then [events[0]] else [])
              + OfType(Naming(events[1..], slotId), kind)
  {
    var rest := Naming(events[1..], slotId);
    assert ([events[0]] + rest)[1..] == rest;
    assert [] + rest == rest;
  }

  lemma {:induction false} FactsSplit(events: seq<LegacyEvent>, slotId: string)
    ensures var named := Naming(events, slotId);
            |Facts(events, slotId)|
            == |OfType(named, Switched)| + |OfType(named, BadSlot)| + |OfType(named, MissedSlot)|
  {
    if events != [] {
      FactsSplit(events[1..], slotId);
      NamedOfTypeCons(events, slotId, Switched);
      NamedOfTypeCons(events, slotId, BadSlot);
      NamedOfTypeCons(events, slotId, MissedSlot);
    }
  }

  lemma {:induction false} FactMembers(events: seq<LegacyEvent>, slotId: string, e: LegacyEvent)
    ensures e in Facts(events, slotId) <==> e in events && IsFact(e, slotId)
    ensures e in OfType(Naming(events, slotId), Switched) <==>
              e in events && e.slotId == Some(slotId) && e.eventType == Switched
  {
    if events != [] {
      FactMembers(events[1..], slotId, e);
      NamedOfTypeCons(events, slotId, Switched);
    }
  }

  /**
   In schema v2 a slot has an actual label exactly when one fact alone names it and that
   fact is a labelled switch; the label is then the one the switch carries.
   */
  lemma {:induction false} ActualLabelNeedsOneLabelledSwitch(slot: PlannedSlot, events: seq<LegacyEvent>)
    ensures var facts := Facts(events, slot.slotId);
            && (AlignSlot(slot, events, true).actualLabel.Some? <==>
                  |facts| == 1 && facts[0].eventType == Switched && facts[0].actualAntennaLabel.Some?)
            && (|facts| == 1 && facts[0].eventType == Switched ==>
                  AlignSlot(slot, events, true).actualLabel == facts[0].actualAntennaLabel)
  {
    hide Facts, Naming, OfType;
    var facts, switches := Facts(events, slot.slotId), OfType(Naming(events, slot.slotId), Switched);
    FactsSplit(events, slot.slotId);
    if |facts| == 1 {
      var e := facts[0];
      FactMembers(events, slot.slotId, e);
      if switches != [] {
        FactMembers(events, slot.slotId, switches[0]);
        assert switches[0] in facts;
      } else {
        assert e.eventType == Switched ==> e in switches;
      }
    }
  }
}
