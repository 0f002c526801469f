/** What alignment and classification answer, in terms of the operator facts and of the clock. */
module AttributionFacts {
  import opened Prelude
  import opened Records
  import opened Alignment
  import opened Attribution

  // ----- slots -----

  function GuardEnd(slot: PlannedSlot): Instant {
    slot.startsAt + slot.guardSeconds * SECOND
  }

  /** Whatever happened, an aligned slot keeps its plan. */
  predicate KeepsPlan(slot: PlannedSlot, a: AlignedSlot) {
    && a.slotId == slot.slotId && a.sequenceNumber == slot.sequenceNumber && a.band == slot.band
    && a.plannedLabel == slot.antennaLabel && a.startsAt == slot.startsAt && a.endsAt == SlotEnd(slot)
  }

  /** The slot was switched at this instant to this antenna. */
  predicate SwitchedAt(slot: PlannedSlot, a: AlignedSlot, e: LegacyEvent) {
    var at := e.meta.timestamp;
    && a.status == (if at > GuardEnd(slot) then Late else InTime)
    && a.usableStart == (if at > GuardEnd(slot) then at else GuardEnd(slot))
    && a.switchEventId == Some(e.eventId) && a.switchTimestamp == Some(at)
    && a.switchDelaySeconds == Some(NumSeconds(at - slot.startsAt))
  }

  predicate NotSwitched(slot: PlannedSlot, a: AlignedSlot) {
    && a.usableStart == GuardEnd(slot)
    && a.switchEventId.None? && a.switchTimestamp.None? && a.switchDelaySeconds.None?
  }

  /** Under schema v2 the facts that name a slot, if there is just one, decide what becomes of it. */
  lemma {:induction false} StatusByFacts(slot: PlannedSlot, events: seq<LegacyEvent>)
    ensures var a, facts := AlignSlot(slot, events, true), Facts(events, slot.slotId);
            && KeepsPlan(slot, a)
            && (a.status == UnknownActualState <==> facts == [])
            && (a.status == ConflictingEvidence <==> |facts| >= 2)
            && (a.status == Bad <==> |facts| == 1 && facts[0].eventType == BadSlot)
            && (a.status == Missed <==> |facts| == 1 && facts[0].eventType == MissedSlot)
            && (a.status == InTime || a.status == Late <==> |facts| == 1 && facts[0].eventType == Switched)
            && (|facts| == 1 && facts[0].eventType == Switched ==>
                  SwitchedAt(slot, a, facts[0]) && a.actualLabel == facts[0].actualAntennaLabel)
            && (!(|facts| == 1 && facts[0].eventType == Switched) ==> NotSwitched(slot, a) && a.actualLabel.None?)
  {
    hide AlignSlot, Facts, NotSwitched, NumSeconds, KeepsPlan;
    WindowEnds(slot, events, true);
    if |Facts(events, slot.slotId)| == 1 {
      OneFact(slot, events);
    } else {
      NotOneFact(slot, events);
    }
  }

  lemma {:induction false} NotOneFact(slot: PlannedSlot, events: seq<LegacyEvent>)
    requires |Facts(events, slot.slotId)| != 1
    ensures var a, facts := AlignSlot(slot, events, true), Facts(events, slot.slotId);
            && a.status == (if facts == [] then UnknownActualState else ConflictingEvidence)
            && NotSwitched(slot, a) && a.actualLabel.None?
  {
    FactsSplit(events, slot.slotId);
    hide Facts, Naming, OfType, Earliest, NumSeconds;
  }

  lemma {:induction false} OneFact(slot: PlannedSlot, events: seq<LegacyEvent>)
    requires |Facts(events, slot.slotId)| == 1
    ensures var a, e := AlignSlot(slot, events, true), Facts(events, slot.slotId)[0];
            && (e.eventType == Switched || e.eventType == BadSlot || e.eventType == MissedSlot)
            && (e.eventType == BadSlot ==> a.status == Bad && NotSwitched(slot, a) && a.actualLabel.None?)
            && (e.eventType == MissedSlot ==> a.status == Missed && NotSwitched(slot, a) && a.actualLabel.None?)
            && (e.eventType == Switched ==> SwitchedAt(slot, a, e) && a.actualLabel == e.actualAntennaLabel)
  {
    hide AlignSlot, Facts, Naming, OfType, SwitchedAt, NotSwitched, Earliest;
    OneFactOfItsKind(events, slot.slotId);
    LoneFact(slot, events, Facts(events, slot.slotId)[0]);
  }

  lemma {:induction false} LoneFact(slot: PlannedSlot, events: seq<LegacyEvent>, e: LegacyEvent)
    requires Earliest([e]) == e
    requires var named := Naming(events, slot.slotId);
             && OfType(named, Switched) == (if e.eventType == Switched then [e] else [])
             && OfType(named, BadSlot) == (if e.eventType == BadSlot then [e] else [])
             && OfType(named, MissedSlot) == (if e.eventType == MissedSlot then [e] else [])
    ensures var a := AlignSlot(slot, events, true);
            && (e.eventType == BadSlot ==> a.status == Bad && NotSwitched(slot, a) && a.actualLabel.None?)
            && (e.eventType == MissedSlot ==> a.status == Missed && NotSwitched(slot, a) && a.actualLabel.None?)
            && (e.eventType == Switched ==> SwitchedAt(slot, a, e) && a.actualLabel == e.actualAntennaLabel)
  {
    hide Naming, OfType, NumSeconds, Earliest;
  }

  lemma {:induction false} OneFactOfItsKind(events: seq<LegacyEvent>, slotId: string)
    requires |Facts(events, slotId)| == 1
    ensures var e, named := Facts(events, slotId)[0], Naming(events, slotId);
            && (e.eventType == Switched || e.eventType == BadSlot || e.eventType == MissedSlot)
            && OfType(named, Switched) == (if e.eventType == Switched then [e] else [])
            && OfType(named, BadSlot) == (if e.eventType == BadSlot then [e] else [])
            && OfType(named, MissedSlot) == (if e.eventType == MissedSlot then [e] else [])
            && Earliest([e]) == e
  {
    hide Facts, Naming, OfType, Earliest;
    var e, named := Facts(events, slotId)[0], Naming(events, slotId);
    FactsSplit(events, slotId);
    KindOfFact(events, slotId, e);
    AloneIsEarliest(e);
    Only(OfType(named, e.eventType), e);
  }

  lemma Only(s: seq<LegacyEvent>, e: LegacyEvent)
    requires |s| <= 1 && e in s
    ensures s == [e]
  {
  }

  lemma AloneIsEarliest(e: LegacyEvent)
    ensures Earliest([e]) == e
  {
  }

  lemma {:induction false} KindOfFact(events: seq<LegacyEvent>, slotId: string, e: LegacyEvent)
    requires e in Facts(events, slotId)
    ensures e in events && e.slotId == Some(slotId) && e in OfType(Naming(events, slotId), e.eventType)
    ensures e.eventType == Switched || e.eventType == BadSlot || e.eventType == MissedSlot
  {
    NamedOfTypeCons(events, slotId, e.eventType);
    if e in Facts(events[1..], slotId) {
      KindOfFact(events[1..], slotId, e);
    }
  }

  predicate Says(events: seq<LegacyEvent>, slotId: string, kind: LegacyEventType) {
    exists e :: e in events && e.slotId == Some(slotId) && e.eventType == kind
  }

  lemma {:induction false} SaysIffNamed(events: seq<LegacyEvent>, slotId: string, kind: LegacyEventType, e: LegacyEvent)
    ensures e in OfType(Naming(events, slotId), kind) <==>
              e in events && e.slotId == Some(slotId) && e.eventType == kind
  {
    if events != [] {
      NamedOfTypeCons(events, slotId, kind);
      SaysIffNamed(events[1..], slotId, kind, e);
    }
  }

  /** The switch that counts: none of this slot came before it. */
  ghost predicate IsFirstSwitch(events: seq<LegacyEvent>, slotId: string, e: LegacyEvent) {
    && e in events && e.slotId == Some(slotId) && e.eventType == Switched
    && forall other :: other in events && other.slotId == Some(slotId) && other.eventType == Switched ==>
         e.meta.timestamp <= other.meta.timestamp
  }

  lemma {:induction false} EarliestIsFirst(events: seq<LegacyEvent>, e: LegacyEvent)
    requires e in events
    ensures Earliest(events).meta.timestamp <= e.meta.timestamp
  {
    if |events| > 1 && e in events[1..] {
      EarliestIsFirst(events[1..], e);
    }
  }

  /** Of switches at the same time the first one listed counts. */
  lemma {:induction false} EarliestIsFirstListed(events: seq<LegacyEvent>) returns (i: nat)
    requires events != []
    ensures i < |events| && events[i] == Earliest(events)
    ensures forall j :: 0 <= j < i ==> events[j].meta.timestamp > events[i].meta.timestamp
    ensures forall j :: i <= j < |events| ==> events[j].meta.timestamp >= events[i].meta.timestamp
  {
    if |events| == 1 {
      return 0;
    }
    var k := EarliestIsFirstListed(events[1..]);
    i := if events[0].meta.timestamp <= events[1..][k].meta.timestamp then 0 else k + 1;
  }

  /** Under schema v1 a bad slot comes before a missed one and that before a switch, of which the first counts. */
  lemma StatusByFirstFact(slot: PlannedSlot, events: seq<LegacyEvent>)
    ensures var a, id := AlignSlot(slot, events, false), slot.slotId;
            && KeepsPlan(slot, a)
            && (a.status == Bad <==> Says(events, id, BadSlot))
            && (a.status == Missed <==> Says(events, id, MissedSlot) && !Says(events, id, BadSlot))
            && (a.status == Bad || a.status == Missed ==> NotSwitched(slot, a) && a.actualLabel.None?)
            && (a.status == InTime || a.status == Late <==>
                  Says(events, id, Switched) && !Says(events, id, BadSlot) && !Says(events, id, MissedSlot))
            && (a.status == InTime || a.status == Late ==>
                  exists e :: IsFirstSwitch(events, id, e) && SwitchedAt(slot, a, e)
                    && a.actualLabel == Some(if e.actualAntennaLabel.Some? then e.actualAntennaLabel.value
                                             else slot.antennaLabel))
            && (a.status == PlannedNoSwitchEvent <==>
                  !Says(events, id, Switched) && !Says(events, id, BadSlot) && !Says(events, id, MissedSlot))
            && (a.status == PlannedNoSwitchEvent ==> NotSwitched(slot, a) && a.actualLabel == Some(slot.antennaLabel))
  {
    var id := slot.slotId;
    SomeOfType(events, id, BadSlot);
    SomeOfType(events, id, MissedSlot);
    SomeOfType(events, id, Switched);
    hide Naming, OfType, Earliest, NumSeconds, Says, IsFirstSwitch;
    WindowEnds(slot, events, false);
    if OfType(Naming(events, id), Switched) != [] {
      FirstSwitch(events, id);
    }
  }

  lemma {:induction false} SomeOfType(events: seq<LegacyEvent>, slotId: string, kind: LegacyEventType)
    ensures OfType(Naming(events, slotId), kind) != [] <==> Says(events, slotId, kind)
  {
    var s := OfType(Naming(events, slotId), kind);
    forall e
      ensures e in s <==> e in events && e.slotId == Some(slotId) && e.eventType == kind
    {
      SaysIffNamed(events, slotId, kind, e);
    }
    hide Naming, OfType;
    if s != [] {
      assert s[0] in s;
    }
  }

  lemma {:induction false} FirstSwitch(events: seq<LegacyEvent>, slotId: string)
    requires OfType(Naming(events, slotId), Switched) != []
    ensures IsFirstSwitch(events, slotId, Earliest(OfType(Naming(events, slotId), Switched)))
  {
    var s := OfType(Naming(events, slotId), Switched);
    forall e
      ensures e in s <==> e in events && e.slotId == Some(slotId) && e.eventType == Switched
      ensures e in s ==> Earliest(s).meta.timestamp <= e.meta.timestamp
    {
      SaysIffNamed(events, slotId, Switched, e);
      if e in s {
        EarliestIsFirst(s, e);
      }
    }
    hide Naming, OfType, Earliest;
  }

  // ----- observations -----

  /** The slot at this position is the first whose planned window covers the instant. */
  predicate FirstWindow(schedule: Schedule, at: Instant, i: nat) {
    && i < |schedule.slots| && schedule.slots[i].startsAt <= at < SlotEnd(schedule.slots[i])
    && forall j :: 0 <= j < i ==> !(schedule.slots[j].startsAt <= at < SlotEnd(schedule.slots[j]))
  }

  lemma {:induction false} FirstCoveringAt(slots: seq<AlignedSlot>, at: Instant, i: nat)
    requires i < |slots| && Covers(slots[i], at) && forall j :: 0 <= j < i ==> !Covers(slots[j], at)
    ensures FirstCovering(slots, at) == Some(slots[i])
  {
    if i > 0 {
      assert forall j :: 0 <= j < i - 1 ==> slots[1..][j] == slots[j + 1];
      FirstCoveringAt(slots[1..], at, i - 1);
    }
  }

  lemma {:induction false} NoneCovering(slots: seq<AlignedSlot>, at: Instant)
    requires forall s :: s in slots ==> !Covers(s, at)
    ensures FirstCovering(slots, at).None?
  {
    if slots != [] {
      NoneCovering(slots[1..], at);
    }
  }

  lemma WindowsAreKept(schedule: Schedule, events: seq<LegacyEvent>, at: Instant)
    ensures var slots := AlignSlots(schedule, events);
            forall i :: 0 <= i < |slots| ==>
              && slots[i] == AlignSlot(schedule.slots[i], events, IsV2(schedule))
              && (Covers(slots[i], at) <==> schedule.slots[i].startsAt <= at < SlotEnd(schedule.slots[i]))
              && slots[i].band == schedule.slots[i].band
  {
    hide Naming, OfType, Earliest;
  }

  /** How an established slot's own observations are told apart, by the clock. */
  ghost predicate TimedDisposition(slot: PlannedSlot, a: AlignedSlot, o: Observation, given: Assignment) {
    var at := o.timestamp;
    var disposition := Classify(given);
    if at < a.usableStart then
      && disposition == Some(Excluded(if a.status == Late then BeforeObservedSwitchExclusion else GuardTimeExclusion))
      && given.confidence == (if a.status == Late then 0.10 else 0.25)
      && given.slotLabel == (if a.status != Late && a.switchTimestamp.Some? && a.switchTimestamp.value <= at
                             then a.actualLabel else None)
    else if SlotEnd(slot) - at < 6 * SECOND then
      disposition == Some(Excluded(NearBoundaryExclusion)) && given.confidence == 0.60
      && given.slotLabel == a.actualLabel
    else
      && (disposition == if a.actualLabel.Some? then Some(Usable) else None)
      && given.confidence == (if a.status == Late then 0.70 else if a.status == InTime then 0.95 else 0.80)
      && given.slotLabel == a.actualLabel
  }

  /** What becomes of an observation in the first window that covers it. */
  ghost predicate Answer(slot: PlannedSlot, a: AlignedSlot, o: Observation, given: Assignment) {
    var disposition := Classify(given);
    if o.band != slot.band then disposition == Some(Excluded(BandMismatchExclusion)) && given.slotId.None?
    else
      && given.slotId == Some(slot.slotId)
      && match a.status
         case Bad => disposition == Some(Excluded(BadSlotExclusion)) && given.slotLabel.None?
         case Missed => disposition == Some(Excluded(MissedSlotExclusion)) && given.slotLabel.None?
         case UnknownActualState => disposition == Some(Excluded(MissingEvidence)) && given.slotLabel.None?
         case ConflictingEvidence => disposition == Some(Excluded(ContradictoryEvidence)) && given.slotLabel.None?
         case _ => TimedDisposition(slot, a, o, given)
  }

  /** An observation outside all windows belongs to no slot; otherwise the first window that covers it decides. */
  lemma AnswerByWindow(o: Observation, schedule: Schedule, events: seq<LegacyEvent>, i: nat)
    ensures var given := Assign(o, AlignSlots(schedule, events), BOUNDARY_SECONDS);
            && (FirstWindow(schedule, o.timestamp, i) ==>
                  Answer(schedule.slots[i], AlignSlot(schedule.slots[i], events, IsV2(schedule)), o, given))
            && ((forall s :: s in schedule.slots ==> !(s.startsAt <= o.timestamp < SlotEnd(s))) ==>
                  Classify(given) == Some(Excluded(OutsideScheduleExclusion)) && given.slotId.None?)
  {
    var slots := AlignSlots(schedule, events);
    WindowsAreKept(schedule, events, o.timestamp);
    hide AlignSlot, AlignSlots;
    if FirstWindow(schedule, o.timestamp, i) {
      hide Covers;
      FirstCoveringAt(slots, o.timestamp, i);
      WindowEnds(schedule.slots[i], events, IsV2(schedule));
      AnswerOfSlot(schedule.slots[i], slots[i], o, slots);
    } else if forall s :: s in schedule.slots ==> !(s.startsAt <= o.timestamp < SlotEnd(s)) {
      NoneCovering(slots, o.timestamp);
    }
  }

  lemma WindowEnds(slot: PlannedSlot, events: seq<LegacyEvent>, schemaV2: bool)
    ensures KeepsPlan(slot, AlignSlot(slot, events, schemaV2))
  {
    hide Naming, OfType, Earliest;
  }

  lemma {:induction false} AnswerOfSlot(slot: PlannedSlot, a: AlignedSlot, o: Observation, slots: seq<AlignedSlot>)
    requires FirstCovering(slots, o.timestamp) == Some(a) && KeepsPlan(slot, a)
    ensures Answer(slot, a, o, Assign(o, slots, BOUNDARY_SECONDS))
  {
    hide FirstCovering;
    WholeSecondsExceed(a.endsAt - o.timestamp, BOUNDARY_SECONDS);
  }

  /**
   Under schema v2 an observation on the band of the first slot whose window covers it is excluded for a bad or missed
   slot, for want of facts or for too many, exactly when the facts that name the slot say so.
   */
  lemma {:induction false} ExclusionsByFacts(o: Observation, schedule: Schedule, events: seq<LegacyEvent>, i: nat)
    requires IsV2(schedule) && FirstWindow(schedule, o.timestamp, i) && o.band == schedule.slots[i].band
    ensures var disposition := Classify(Assign(o, AlignSlots(schedule, events), BOUNDARY_SECONDS));
            var facts := Facts(events, schedule.slots[i].slotId);
            && (disposition == Some(Excluded(BadSlotExclusion)) <==> |facts| == 1 && facts[0].eventType == BadSlot)
            && (disposition == Some(Excluded(MissedSlotExclusion)) <==>
                  |facts| == 1 && facts[0].eventType == MissedSlot)
            && (disposition == Some(Excluded(MissingEvidence)) <==> facts == [])
            && (disposition == Some(Excluded(ContradictoryEvidence)) <==> |facts| >= 2)
  {
    hide AlignSlot, AlignSlots, Assign, Classify, Facts, NotSwitched, KeepsPlan, NumSeconds, GuardEnd;
    StatusByFacts(schedule.slots[i], events);
    AnswerByWindow(o, schedule, events, i);
  }
}
