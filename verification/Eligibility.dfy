/** Which slots and observations the reports of validation leave out of the analysis. */
module Eligibility {
  import opened Prelude
  import opened Records
  import opened Alignment

  // ----- positions of ids -----

  /** The first position of an id, or the length if there is none. */
  function FirstAt(ids: seq<string>, id: string): (p: nat)
    ensures p <= |ids| && (p < |ids| <==> id in ids) && (p < |ids| ==> ids[p] == id)
    ensures forall j :: 0 <= j < p ==> ids[j] != id
  {
    if ids == [] || ids[0] == id then 0 else 1 + FirstAt(ids[1..], id)
  }

  /** The position after the first one at which an id comes again. */
  function SecondAt(ids: seq<string>, id: string): (p: nat)
    requires id in ids
    ensures FirstAt(ids, id) < p <= |ids| && (p < |ids| ==> ids[p] == id)
    ensures forall j :: FirstAt(ids, id) < j < p ==> ids[j] != id
  {
    var next := FirstAt(ids, id) + 1;
    next + FirstAt(ids[next..], id)
  }

  predicate OnceAt(ids: seq<string>, i: nat)
    requires i < |ids|
  {
    forall j :: 0 <= j < |ids| && j != i ==> ids[j] != ids[i]
  }

  /** The id at this position has come twice before. */
  predicate ThirdAt(ids: seq<string>, i: nat)
    requires i < |ids|
  {
    exists j, k :: 0 <= j < k < i && ids[j] == ids[i] && ids[k] == ids[i]
  }

  /** The positions that reports of a repeated id name: its first two. */
  function Duplicates(ids: seq<string>): set<nat> {
    set i: nat | i < |ids| && !OnceAt(ids, i) && !ThirdAt(ids, i)
  }

  lemma {:induction false} OneOfFirstTwo(ids: seq<string>, i: nat)
    requires i < |ids|
    ensures var first, second := FirstAt(ids, ids[i]), SecondAt(ids, ids[i]);
            && (i == first || i >= second)
            && (ThirdAt(ids, i) <==> i > second)
            && (OnceAt(ids, i) <==> second == |ids|)
  {
  }

  /** The first two positions of the ids that repeat among the first n. */
  function Repeated(ids: seq<string>, n: nat): set<nat> {
    set p: nat | p < |ids| && p <= SecondAt(ids, ids[p]) < n
  }

  lemma {:induction false} RepeatedNext(ids: seq<string>, n: nat)
    requires n < |ids|
    ensures var first := FirstAt(ids, ids[n]);
            && (first < n <==> ids[n] in ids[..n])
            && Repeated(ids, n + 1)
               == if first < n then Repeated(ids, n) + {first, SecondAt(ids, ids[n])} else Repeated(ids, n)
  {
    hide FirstAt, SecondAt;
    var first, second := FirstAt(ids, ids[n]), SecondAt(ids, ids[n]);
    assert first < n <==> ids[n] in ids[..n];
    assert first < n <==> second <= n;
    forall p: nat | p < |ids|
      ensures p in Repeated(ids, n + 1) <==> p in Repeated(ids, n) || (first < n && (p == first || p == second))
    {
      if ids[p] == ids[n] {
        assert p == first || p >= second;
      }
    }
  }

  /** Each repetition is reported, at the first two positions of its id. */
  method ReportDuplicates(ids: seq<string>) returns (excluded: set<nat>)
    ensures excluded == Duplicates(ids)
  {
    hide FirstAt, SecondAt;
    excluded := {};
    var seen: set<string> := {};
    for i := 0 to |ids|
      invariant seen == set id | id in ids[..i]
      invariant excluded == Repeated(ids, i)
    {
      RepeatedNext(ids, i);
      hide Repeated;
      assert ids[..i + 1] == ids[..i] + [ids[i]];
      if ids[i] in seen {
        excluded := excluded + {FirstAt(ids, ids[i]), SecondAt(ids, ids[i])};
      } else {
        seen := seen + {ids[i]};
      }
    }
    RepeatedAreDuplicates(ids);
  }

  lemma RepeatedAreDuplicates(ids: seq<string>)
    ensures Repeated(ids, |ids|) == Duplicates(ids)
  {
    forall p: nat | p < |ids|
      ensures p in Repeated(ids, |ids|) <==> p in Duplicates(ids)
    {
      OneOfFirstTwo(ids, p);
    }
  }

  // ----- slots -----

  function SlotIds(slots: seq<PlannedSlot>): (ids: seq<string>)
    ensures |ids| == |slots|
  {
    seq(|slots|, i requires 0 <= i < |slots| => slots[i].slotId)
  }

  /** The slot does not start after its predecessor, or their windows overlap. */
  predicate Clash(previous: PlannedSlot, slot: PlannedSlot) {
    || slot.startsAt <= previous.startsAt
    || (slot.startsAt < SlotEnd(previous) && previous.startsAt < SlotEnd(slot))
  }

  function PositionsOf(slots: seq<PlannedSlot>, a: PlannedSlot, b: PlannedSlot): set<nat> {
    {FirstAt(SlotIds(slots), a.slotId), FirstAt(SlotIds(slots), b.slotId)}
  }

  /** Clashing neighbours among the first n slots, each reported at the first position of its id. */
  function WindowExclusions(slots: seq<PlannedSlot>, n: nat): set<nat>
    requires n <= |slots|
  {
    if n < 2 then {}
    else
      var before := WindowExclusions(slots, n - 1);
      if Clash(slots[n - 2], slots[n - 1]) then before + PositionsOf(slots, slots[n - 2], slots[n - 1]) else before
  }

  /** One pass that remembers the previous slot. */
  method ValidateWindows(slots: seq<PlannedSlot>) returns (excluded: set<nat>)
    ensures excluded == WindowExclusions(slots, |slots|)
  {
    excluded := {};
    var previous := None;
    for i := 0 to |slots|
      invariant previous == if i == 0 then None else Some(slots[i - 1])
      invariant excluded == WindowExclusions(slots, i)
    {
      if previous.Some? && Clash(previous.value, slots[i]) {
        excluded := excluded + PositionsOf(slots, previous.value, slots[i]);
      }
      previous := Some(slots[i]);
    }
  }

  /** A slot clashes with its predecessor unless it starts after it and not before it ends. */
  lemma ClashByTimes(previous: PlannedSlot, slot: PlannedSlot)
    ensures !Clash(previous, slot) <==> slot.startsAt > previous.startsAt && slot.startsAt >= SlotEnd(previous)
  {
  }

  /** The slots on antennas that the session does not know, each reported at the first position of its id. */
  function UnknownAntennas(slots: seq<PlannedSlot>, antennas: set<string>): set<nat> {
    set i: nat | i < |slots| && slots[i].antennaLabel !in antennas :: FirstAt(SlotIds(slots), slots[i].slotId)
  }

  /** The slots that are malformed by themselves or behind their predecessor in sequence. */
  function MalformedSlots(slots: seq<PlannedSlot>): set<nat> {
    set i: nat | i < |slots|
                 && (slots[i].guardSeconds >= slots[i].durationSeconds
                     || (i > 0 && slots[i].sequenceNumber < slots[i - 1].sequenceNumber))
  }

  function SlotExclusions(slots: seq<PlannedSlot>, antennas: set<string>): set<nat> {
    WindowExclusions(slots, |slots|) + Duplicates(SlotIds(slots)) + UnknownAntennas(slots, antennas)
    + MalformedSlots(slots)
  }

  /** The slots that are left, in order. */
  function KeptSlots(slots: seq<PlannedSlot>, excluded: set<nat>): seq<PlannedSlot> {
    if slots == [] then []
    else
      var n := |slots| - 1;
      KeptSlots(slots[..n], excluded) + (if n in excluded then [] else [slots[n]])
  }

  /** The events that are left: those of no slot, and those of a slot that is left. */
  function KeptEvents(events: seq<LegacyEvent>, excluded: set<nat>, slots: seq<PlannedSlot>): seq<LegacyEvent> {
    if events == [] then []
    else
      var n := |events| - 1;
      var kept := n !in excluded && (events[n].slotId.None? || events[n].slotId.value in SlotIds(slots));
      KeptEvents(events[..n], excluded, slots) + (if kept then [events[n]] else [])
  }

  lemma {:induction false} KeptSlotsAreSlots(slots: seq<PlannedSlot>, excluded: set<nat>, s: PlannedSlot)
    ensures s in KeptSlots(slots, excluded) <==> exists i :: 0 <= i < |slots| && i !in excluded && slots[i] == s
  {
    if slots != [] {
      KeptSlotsAreSlots(slots[..|slots| - 1], excluded, s);
    }
  }

  lemma {:induction false} KeptEventsAreEvents(events: seq<LegacyEvent>, excluded: set<nat>, slots: seq<PlannedSlot>,
                                               e: LegacyEvent)
    ensures e in KeptEvents(events, excluded, slots) <==>
              && (exists i :: 0 <= i < |events| && i !in excluded && events[i] == e)
              && (e.slotId.Some? ==> exists s :: s in slots && s.slotId == e.slotId.value)
  {
    hide SlotIds;
    if events != [] {
      var n := |events| - 1;
      KeptEventsAreEvents(events[..n], excluded, slots, e);
      if e.slotId.Some? {
        IdsOfSlots(slots, e.slotId.value);
      }
      assert (exists i :: 0 <= i < |events| && i !in excluded && events[i] == e) <==>
             (n !in excluded && events[n] == e)
             || exists i :: 0 <= i < n && i !in excluded && events[..n][i] == e;
    }
  }

  lemma IdsOfSlots(slots: seq<PlannedSlot>, id: string)
    ensures id in SlotIds(slots) <==> exists s :: s in slots && s.slotId == id
  {
    if s :| s in slots && s.slotId == id {
      var i :| 0 <= i < |slots| && slots[i] == s;
      assert SlotIds(slots)[i] == id;
    }
  }

  /** What excludes a slot: a clash with a neighbour, a repeated id, an unknown antenna, no time left, or its place. */
  lemma SlotsStayIff(slots: seq<PlannedSlot>, antennas: set<string>, i: nat)
    requires i < |slots| && forall j :: 0 <= j < |slots| && j != i ==> slots[j].slotId != slots[i].slotId
    ensures i !in SlotExclusions(slots, antennas) <==>
              && (i > 0 ==> slots[i].startsAt > slots[i - 1].startsAt && slots[i].startsAt >= SlotEnd(slots[i - 1]))
              && (i + 1 < |slots| ==>
                    slots[i + 1].startsAt > slots[i].startsAt && slots[i + 1].startsAt >= SlotEnd(slots[i]))
              && slots[i].antennaLabel in antennas
              && slots[i].guardSeconds < slots[i].durationSeconds
              && (i > 0 ==> slots[i].sequenceNumber >= slots[i - 1].sequenceNumber)
  {
    ClashExcludes(slots, |slots|, i);
    KnownAntennaStays(slots, antennas, i);
    if i > 0 {
      ClashByTimes(slots[i - 1], slots[i]);
    }
    if i + 1 < |slots| {
      ClashByTimes(slots[i], slots[i + 1]);
    }
    assert OnceAt(SlotIds(slots), i);
    hide WindowExclusions, Clash, SlotIds, UnknownAntennas, SlotEnd, ThirdAt, OnceAt;
  }

  lemma KnownAntennaStays(slots: seq<PlannedSlot>, antennas: set<string>, i: nat)
    requires i < |slots| && forall j :: 0 <= j < |slots| && j != i ==> slots[j].slotId != slots[i].slotId
    ensures i in UnknownAntennas(slots, antennas) <==> slots[i].antennaLabel !in antennas
  {
    OnlyItsPosition(slots, i);
    hide FirstAt, SlotIds;
  }

  lemma OnlyItsPosition(slots: seq<PlannedSlot>, i: nat)
    requires i < |slots| && forall j :: 0 <= j < |slots| && j != i ==> slots[j].slotId != slots[i].slotId
    ensures forall j :: 0 <= j < |slots| ==> (FirstAt(SlotIds(slots), slots[j].slotId) == i <==> j == i)
  {
    var ids := SlotIds(slots);
    hide FirstAt;
    forall j | 0 <= j < |slots|
      ensures FirstAt(ids, slots[j].slotId) == i <==> j == i
    {
      assert ids[j] == slots[j].slotId && ids[i] == slots[i].slotId;
    }
  }

  /** A slot with an id of its own is excluded for its window exactly if it clashes with one of its neighbours. */
  lemma {:induction false} ClashExcludes(slots: seq<PlannedSlot>, n: nat, i: nat)
    requires i < |slots| && n <= |slots|
    requires forall j :: 0 <= j < |slots| && j != i ==> slots[j].slotId != slots[i].slotId
    ensures i in WindowExclusions(slots, n) <==>
              || (0 < i < n && Clash(slots[i - 1], slots[i]))
              || (i + 1 < n && Clash(slots[i], slots[i + 1]))
  {
    if n >= 2 {
      OnlyItsPosition(slots, i);
      ClashExcludes(slots, n - 1, i);
      hide Clash, FirstAt;
    }
  }

  // ----- observations -----

  const CONFIDENCE_TOLERANCE: real := 0.000001

  predicate ConfidenceMatches(stored: Option<real>, expected: real) {
    stored.Some? && -CONFIDENCE_TOLERANCE <= stored.value - expected <= CONFIDENCE_TOLERANCE
  }

  /** Confidences match up to a millionth. */
  lemma ConfidencesMatchClosely(stored: Option<real>, expected: real)
    ensures ConfidenceMatches(stored, expected) <==>
              && stored.Some? && 1000000.0 * (stored.value - expected) <= 1.0
              && 1000000.0 * (expected - stored.value) <= 1.0
  {
  }

  /** A stored annotation differs from the regenerated one. */
  predicate Mismatched(o: Observation, a: Assignment) {
    o.slotId != a.slotId || o.slotLabel != a.slotLabel || !ConfidenceMatches(o.slotConfidence, a.confidence)
  }

  function ObservationIds(observations: seq<Observation>): (ids: seq<string>)
    ensures |ids| == |observations|
  {
    seq(|observations|, i requires 0 <= i < |observations| => observations[i].observationId)
  }

  /** Mismatches are reported by id, so they exclude the first observation with it. */
  function MismatchExclusions(schedule: Schedule, events: seq<LegacyEvent>, observations: seq<Observation>): set<nat> {
    set i: nat | i < |observations|
                 && Mismatched(observations[i],
                               Assign(observations[i], AlignSlots(schedule, events), BOUNDARY_SECONDS)) ::
      FirstAt(ObservationIds(observations), observations[i].observationId)
  }

  /** The observations left out for their annotation or a repeated id. */
  function ObservationExclusions(schedule: Schedule, events: seq<LegacyEvent>, observations: seq<Observation>)
    : set<nat>
  {
    MismatchExclusions(schedule, events, observations) + Duplicates(ObservationIds(observations))
  }

  /** What stays is alone with its id and stores its own annotation, or repeats an id for the third time or more. */
  lemma IncludedIffOwnOrThird(schedule: Schedule, events: seq<LegacyEvent>, observations: seq<Observation>, i: nat)
    requires i < |observations|
    ensures var ids := ObservationIds(observations);
            var a := Assign(observations[i], AlignSlots(schedule, events), BOUNDARY_SECONDS);
            i !in ObservationExclusions(schedule, events, observations) <==>
              ThirdAt(ids, i) || (OnceAt(ids, i) && !Mismatched(observations[i], a))
  {
    hide Assign, AlignSlots, Mismatched;
    var ids := ObservationIds(observations);
    var a := Assign(observations[i], AlignSlots(schedule, events), BOUNDARY_SECONDS);
    if OnceAt(ids, i) && Mismatched(observations[i], a) {
      assert FirstAt(ids, observations[i].observationId) in MismatchExclusions(schedule, events, observations);
      assert FirstAt(ids, ids[i]) == i;
    }
    if i in MismatchExclusions(schedule, events, observations) {
      var j: nat :| j < |observations| && i == FirstAt(ids, observations[j].observationId)
                    && Mismatched(observations[j],
                                  Assign(observations[j], AlignSlots(schedule, events), BOUNDARY_SECONDS));
      assert ids[j] == ids[i] && !ThirdAt(ids, i);
    }
  }
}
