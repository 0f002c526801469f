/** What an assigned antenna label proves, and which observations are classified usable. */
module Attribution {
  import opened Prelude
  import opened Records
  import opened EventLog
  import opened EventTypes
  import opened Alignment
  import LegacyProjection
  import EventShapes

  /** An operator confirmed this label for this slot no later than the given instant. */
  ghost predicate ConfirmedBy(events: seq<LegacyEvent>, slotId: string, antenna: string, at: Instant) {
    exists e :: e in events && e.eventType == LegacyEventType.Switched && e.slotId == Some(slotId)
                && e.actualAntennaLabel == Some(antenna) && e.meta.timestamp <= at
  }

  lemma SwitchedSlotNamesItsSwitch(slot: PlannedSlot, events: seq<LegacyEvent>)
    requires AlignSlot(slot, events, true).actualLabel.Some?
    ensures var a := AlignSlot(slot, events, true);
            && a.switchTimestamp.Some? && a.usableStart >= a.switchTimestamp.value
            && ConfirmedBy(events, slot.slotId, a.actualLabel.value, a.switchTimestamp.value)
  {
    hide Naming, OfType;
    var switches := OfType(Naming(events, slot.slotId), LegacyEventType.Switched);
    var e := Earliest(switches);
    FactMembers(events, slot.slotId, e);
  }

  /**
   Attribution is never early: under schema v2 an observation carries a label only if an
   operator had confirmed that label for that slot by the time of the observation.
   */
  lemma LabelsAreConfirmedFirst(observation: Observation, schedule: Schedule, events: seq<LegacyEvent>,
                                boundarySeconds: int)
    requires IsV2(schedule)
    ensures var a := Assign(observation, AlignSlots(schedule, events), boundarySeconds);
            a.slotLabel.Some? ==>
              a.slotId.Some? && ConfirmedBy(events, a.slotId.value, a.slotLabel.value, observation.timestamp)
  {
    var slots := AlignSlots(schedule, events);
    var a := Assign(observation, slots, boundarySeconds);
    LabelComesFromCoveringSlot(observation, slots, boundarySeconds);
    if a.slotLabel.Some? {
      hide AlignSlot, ConfirmedBy, Assign;
      var slot := FirstCovering(slots, observation.timestamp).value;
      var i :| 0 <= i < |slots| && slots[i] == slot;
      SwitchedSlotNamesItsSwitch(schedule.slots[i], events);
      assert AlignSlot(schedule.slots[i], events, true).slotId == schedule.slots[i].slotId;
      assert ConfirmedBy(events, slot.slotId, a.slotLabel.value, observation.timestamp);
    }
  }

  /** A label is the covering slot's, given only from its usable start or its switch onward. */
  lemma {:induction false} LabelComesFromCoveringSlot(observation: Observation, slots: seq<AlignedSlot>,
                                                      boundarySeconds: int)
    ensures var a, found := Assign(observation, slots, boundarySeconds), FirstCovering(slots, observation.timestamp);
            a.slotLabel.Some? ==>
              && found.Some? && a.slotId == Some(found.value.slotId) && a.slotLabel == found.value.actualLabel
              && (observation.timestamp >= found.value.usableStart
                  || (found.value.switchTimestamp.Some? && found.value.switchTimestamp.value <= observation.timestamp))
  {
  }

  // ----- classification -----

  datatype Exclusion =
    | GuardTimeExclusion | NearBoundaryExclusion | BeforeObservedSwitchExclusion | MissedSlotExclusion
    | BadSlotExclusion | BandMismatchExclusion | OutsideScheduleExclusion | MissingEvidence
    | MalformedEvidence | ContradictoryEvidence | UnsupportedEvidence | DuplicateEvidence

  datatype Disposition = Usable | Excluded(reason: Exclusion)

  const MINIMUM_USABLE_CONFIDENCE: real := 0.70

  /** `None` stands for reaching the branch that the program declares unreachable. */
  function Classify(a: Assignment): Option<Disposition> {
    match a.reason
    case Interior | LateSwitch =>
      if a.slotId.Some? && a.slotLabel.Some? && a.confidence >= MINIMUM_USABLE_CONFIDENCE then Some(Usable) else None
    case GuardTime => Some(Excluded(GuardTimeExclusion))
    case NearBoundary => Some(Excluded(NearBoundaryExclusion))
    case BeforeObservedSwitch => Some(Excluded(BeforeObservedSwitchExclusion))
    case InMissedSlot => Some(Excluded(MissedSlotExclusion))
    case InBadSlot => Some(Excluded(BadSlotExclusion))
    case InUnknownState => Some(Excluded(MissingEvidence))
    case InConflict => Some(Excluded(ContradictoryEvidence))
    case BandMismatch => Some(Excluded(BandMismatchExclusion))
    case OutsideSchedule => Some(Excluded(OutsideScheduleExclusion))
  }

  /** The observation falls well inside a slot of its band whose antenna state was established. */
  ghost predicate WellInside(observation: Observation, slots: seq<AlignedSlot>, boundarySeconds: int) {
    var found := FirstCovering(slots, observation.timestamp);
    && found.Some?
    && found.value.band == observation.band
    && (found.value.status == InTime || found.value.status == Late || found.value.status == PlannedNoSwitchEvent)
    && observation.timestamp >= found.value.usableStart
    && found.value.endsAt - observation.timestamp >= (boundarySeconds + 1) * SECOND
  }

  lemma WholeSecondsExceed(d: int, seconds: int)
    requires d > 0
    ensures NumSeconds(d) > seconds <==> d >= (seconds + 1) * SECOND
  {
  }

  /** Interior and late-switch assignments are exactly the observations well inside a slot. */
  lemma InteriorIffWellInside(observation: Observation, slots: seq<AlignedSlot>, boundarySeconds: int)
    ensures var a := Assign(observation, slots, boundarySeconds);
            (a.reason == Interior || a.reason == LateSwitch) <==> WellInside(observation, slots, boundarySeconds)
  {
    var found := FirstCovering(slots, observation.timestamp);
    if found.Some? {
      WholeSecondsExceed(found.value.endsAt - observation.timestamp, boundarySeconds);
    }
  }

  /** The unreachable branch is reached exactly for a well-placed observation of an unlabelled slot. */
  lemma {:induction false} UnreachableIffUnlabelled(observation: Observation, slots: seq<AlignedSlot>,
                                                    boundarySeconds: int)
    ensures Classify(Assign(observation, slots, boundarySeconds)).None? <==>
              && WellInside(observation, slots, boundarySeconds)
              && FirstCovering(slots, observation.timestamp).value.actualLabel.None?
    ensures Classify(Assign(observation, slots, boundarySeconds)) == Some(Usable) <==>
              && WellInside(observation, slots, boundarySeconds)
              && FirstCovering(slots, observation.timestamp).value.actualLabel.Some?
  {
    hide WellInside;
    InteriorIffWellInside(observation, slots, boundarySeconds);
  }

  ghost predicate SwitchesLabelled(events: seq<LegacyEvent>) {
    forall e :: e in events && e.eventType == LegacyEventType.Switched ==> e.actualAntennaLabel.Some?
  }

  lemma EstablishedSlotsAreLabelled(slot: PlannedSlot, events: seq<LegacyEvent>, schemaV2: bool)
    requires SwitchesLabelled(events) || !schemaV2
    ensures var a := AlignSlot(slot, events, schemaV2);
            a.status == InTime || a.status == Late || a.status == PlannedNoSwitchEvent ==> a.actualLabel.Some?
  {
    hide Naming, OfType;
    var switches := OfType(Naming(events, slot.slotId), LegacyEventType.Switched);
    if switches != [] {
      FactMembers(events, slot.slotId, Earliest(switches));
    }
  }

  /** With labelled switches, or under schema v1, every observation is classified. */
  lemma LabelledSwitchesAreClassified(observation: Observation, schedule: Schedule, events: seq<LegacyEvent>,
                                      boundarySeconds: int)
    requires SwitchesLabelled(events) || !IsV2(schedule)
    ensures Classify(Assign(observation, AlignSlots(schedule, events), boundarySeconds)).Some?
  {
    hide AlignSlot, WellInside, Assign, Classify;
    var slots := AlignSlots(schedule, events);
    UnreachableIffUnlabelled(observation, slots, boundarySeconds);
    var found := FirstCovering(slots, observation.timestamp);
    if found.Some? {
      var i :| 0 <= i < |slots| && slots[i] == found.value;
      EstablishedSlotsAreLabelled(schedule.slots[i], events, IsV2(schedule));
    }
    InsideIsEstablished(observation, slots, boundarySeconds);
  }

  lemma {:induction false} InsideIsEstablished(observation: Observation, slots: seq<AlignedSlot>, boundarySeconds: int)
    ensures WellInside(observation, slots, boundarySeconds) ==>
              var found := FirstCovering(slots, observation.timestamp);
              found.Some? && (found.value.status == InTime || found.value.status == Late
                              || found.value.status == PlannedNoSwitchEvent)
  {
  }

  /**
   For every log of operator events, whichever of its projected facts and whichever slots the analysis keeps, the
   unreachable branch stays dead.
   */
  lemma {:induction false} ProjectedLogsAreClassified(observation: Observation, schedule: Schedule, log: seq<EventV2>,
                                                      kept: seq<LegacyEvent>,
                                                      boundarySeconds: int)
    ensures var events := LegacyProjection.CurrentEvents(log, Replay(Ready, EventShapes.EntriesV2(log)).board);
            (forall e :: e in kept ==> e in events) ==>
              Classify(Assign(observation, AlignSlots(schedule, kept), boundarySeconds)).Some?
  {
    hide Replay, Assign, Classify, AlignSlots, FirstCovering;
    var board := Replay(Ready, EventShapes.EntriesV2(log)).board;
    var events := LegacyProjection.CurrentEvents(log, board);
    ProjectedSwitchesLabelled(log, board);
    if forall e :: e in kept ==> e in events {
      LabelledSwitchesAreClassified(observation, schedule, kept, boundarySeconds);
    }
  }

  lemma {:induction false} ProjectedSwitchesLabelled(log: seq<EventV2>, board: seq<Cell<EffectiveV2>>)
    requires |log| == |board|
    ensures SwitchesLabelled(LegacyProjection.CurrentEvents(log, board))
  {
    if log != [] {
      var n := |log| - 1;
      ProjectedSwitchesLabelled(log[..n], board[..n]);
    }
  }

  // ----- annotating a bundle's observations -----

  function Annotate(o: Observation, assignments: seq<Assignment>): Observation {
    if assignments == [] then o
    else if assignments[0].observationId == o.observationId then
      o.(slotId := assignments[0].slotId, slotLabel := assignments[0].slotLabel,
         slotConfidence := Some(assignments[0].confidence))
    else Annotate(o, assignments[1..])
  }

  function ApplyAssignments(observations: seq<Observation>, assignments: seq<Assignment>): (annotated: seq<Observation>)
    ensures |annotated| == |observations|
  {
    seq(|observations|, i requires 0 <= i < |observations| => Annotate(observations[i], assignments))
  }

  function Annotated(schedule: Schedule, events: seq<LegacyEvent>, observations: seq<Observation>): seq<Observation> {
    ApplyAssignments(observations, AssignAll(observations, AlignSlots(schedule, events), BOUNDARY_SECONDS))
  }

  /** Annotating leaves everything but the three annotation fields alone. */
  lemma {:induction false} AnnotateKeepsIdentity(o: Observation, assignments: seq<Assignment>)
    ensures var a := Annotate(o, assignments);
            a.(slotId := o.slotId, slotLabel := o.slotLabel, slotConfidence := o.slotConfidence) == o
    ensures Annotate(Annotate(o, assignments), assignments) == Annotate(o, assignments)
  {
    if assignments != [] {
      AnnotateKeepsIdentity(o, assignments[1..]);
    }
  }

  lemma AnnotationIsIdempotent(schedule: Schedule, events: seq<LegacyEvent>, observations: seq<Observation>)
    ensures Annotated(schedule, events, Annotated(schedule, events, observations))
            == Annotated(schedule, events, observations)
  {
    hide AlignSlots, Annotate;
    var slots := AlignSlots(schedule, events);
    var once := Annotated(schedule, events, observations);
    var assignments := AssignAll(observations, slots, BOUNDARY_SECONDS);
    forall i | 0 <= i < |observations|
      ensures Assign(once[i], slots, BOUNDARY_SECONDS) == Assign(observations[i], slots, BOUNDARY_SECONDS)
    {
      AnnotateKeepsIdentity(observations[i], assignments);
    }
    assert AssignAll(once, slots, BOUNDARY_SECONDS) == assignments;
    forall i | 0 <= i < |observations|
      ensures Annotate(once[i], assignments) == once[i]
    {
      AnnotateKeepsIdentity(observations[i], assignments);
    }
  }

  /** An observation is annotated with its own assignment, if its id names no other. */
  lemma AnnotatedWithOwnAssignment(schedule: Schedule, events: seq<LegacyEvent>, observations: seq<Observation>, i: nat)
    requires i < |observations|
    requires forall j :: 0 <= j < |observations| && j != i ==>
               observations[j].observationId != observations[i].observationId
    ensures var o, a := observations[i], Assign(observations[i], AlignSlots(schedule, events), BOUNDARY_SECONDS);
            Annotated(schedule, events, observations)[i]
            == o.(slotId := a.slotId, slotLabel := a.slotLabel, slotConfidence := Some(a.confidence))
  {
    hide AlignSlots, Annotate;
    var slots := AlignSlots(schedule, events);
    var assignments := AssignAll(observations, slots, BOUNDARY_SECONDS);
    forall j | 0 <= j < |observations|
      ensures assignments[j].observationId == observations[j].observationId
    {
      assert Assign(observations[j], slots, BOUNDARY_SECONDS).observationId == observations[j].observationId;
    }
    hide Assign;
    AnnotateFinds(observations[i], assignments, i);
  }

  lemma {:induction false} AnnotateFinds(o: Observation, assignments: seq<Assignment>, i: nat)
    requires i < |assignments| && assignments[i].observationId == o.observationId
    requires forall j :: 0 <= j < i ==> assignments[j].observationId != o.observationId
    ensures Annotate(o, assignments) == o.(slotId := assignments[i].slotId, slotLabel := assignments[i].slotLabel,
                                           slotConfidence := Some(assignments[i].confidence))
  {
    if i > 0 {
      AnnotateFinds(o, assignments[1..], i - 1);
    }
  }

  class Bundle {
    const schedule: Schedule
    const events: seq<LegacyEvent>
    var observations: seq<Observation>

    constructor (schedule: Schedule, events: seq<LegacyEvent>, observations: seq<Observation>)
      ensures this.schedule == schedule && this.events == events && this.observations == observations
    {
      this.schedule, this.events, this.observations := schedule, events, observations;
    }

    /** The stored observations are those that another annotation would leave alone. */
    ghost predicate IsAnnotated()
      reads this
    {
      observations == Annotated(schedule, events, observations)
    }

    /**
     Each observation keeps everything but its annotation; an observation whose id is its own is annotated with its
     own assignment; annotating again would change nothing, and annotating what is annotated changes nothing.
     */
    method AnnotateObservations() returns (slots: seq<AlignedSlot>, assignments: seq<Assignment>)
      modifies this`observations
      ensures slots == AlignSlots(schedule, events)
      ensures assignments == AssignAll(observations, slots, BOUNDARY_SECONDS)
      ensures observations == Annotated(schedule, events, old(observations)) && IsAnnotated()
      ensures old(IsAnnotated()) ==> observations == old(observations)
      ensures forall i :: 0 <= i < |observations| ==> SameButAnnotation(observations[i], old(observations)[i])
      ensures forall i :: 0 <= i < |observations| && NamedOnce(observations, i) ==>
                AnnotatedBy(observations[i], assignments[i])
    {
      slots := AlignSlots(schedule, events);
      ghost var before := observations;
      assignments := AssignAll(observations, slots, BOUNDARY_SECONDS);
      observations := ApplyAssignments(observations, assignments);
      AnnotationIsIdempotent(schedule, events, before);
      hide AlignSlots, Annotate, Assign;
      forall i | 0 <= i < |observations|
        ensures SameButAnnotation(observations[i], before[i])
        ensures Assign(observations[i], slots, BOUNDARY_SECONDS) == assignments[i]
      {
        AnnotateKeepsIdentity(before[i], assignments);
        assert Assign(observations[i], slots, BOUNDARY_SECONDS) == Assign(before[i], slots, BOUNDARY_SECONDS);
      }
      assert AssignAll(observations, slots, BOUNDARY_SECONDS) == assignments;
      forall i | 0 <= i < |observations| && NamedOnce(observations, i)
        ensures AnnotatedBy(observations[i], assignments[i])
      {
        AnnotatedWithOwnAssignment(schedule, events, before, i);
      }
    }
  }

  predicate SameButAnnotation(o: Observation, was: Observation) {
    o == was.(slotId := o.slotId, slotLabel := o.slotLabel, slotConfidence := o.slotConfidence)
  }

  predicate NamedOnce(observations: seq<Observation>, i: nat)
    requires i < |observations|
  {
    forall j :: 0 <= j < |observations| && j != i ==> observations[j].observationId != observations[i].observationId
  }

  predicate AnnotatedBy(o: Observation, a: Assignment) {
    o.slotId == a.slotId && o.slotLabel == a.slotLabel && o.slotConfidence == Some(a.confidence)
  }
}
