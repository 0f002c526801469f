/** Planning the acquisition windows: one for every slot whose successor, or which itself as the last, is confirmed. */
module AcquisitionPlanning {
  import opened Prelude
  import opened Records
  import opened Acquisition
  import EventShapes
  import EventRules

  const INGESTION_GRACE: int := 300 * SECOND

  /** A slot that starts with a WSPR cycle is queried from the nominal start one second earlier. */
  function QueryStart(at: Instant): Instant {
    if EventShapes.IsWsprCycleStart(at) then at - SECOND else at
  }

  /** The earliest query start among the given start and the slots that end by then. */
  function WindowStart(slots: seq<PlannedSlot>, end: Instant, start: Instant): Instant {
    if slots == [] then start
    else
      var from := QueryStart(slots[0].startsAt);
      WindowStart(slots[1..], end, if SlotEnd(slots[0]) <= end && from < start then from else start)
  }

  /** The bands given and those of the slots that end by then, each once. */
  function BandsUpTo(slots: seq<PlannedSlot>, end: Instant, bands: seq<Band>): seq<Band> {
    if slots == [] then bands
    else
      var more := SlotEnd(slots[0]) <= end && slots[0].band !in bands;
      BandsUpTo(slots[1..], end, if more then bands + [slots[0].band] else bands)
  }

  /** One pass over the schedule finds the start and the bands of a window. */
  method Window(slots: seq<PlannedSlot>, end: Instant, start: Instant) returns (from: Instant, bands: seq<Band>)
    ensures from == WindowStart(slots, end, start) && bands == BandsUpTo(slots, end, [])
  {
    hide QueryStart;
    from, bands := start, [];
    assert slots[0..] == slots;
    for i := 0 to |slots|
      invariant WindowStart(slots[i..], end, from) == WindowStart(slots, end, start)
      invariant BandsUpTo(slots[i..], end, bands) == BandsUpTo(slots, end, [])
    {
      assert slots[i..][0] == slots[i] && slots[i..][1..] == slots[i + 1..];
      if SlotEnd(slots[i]) <= end {
        if QueryStart(slots[i].startsAt) < from {
          from := QueryStart(slots[i].startsAt);
        }
        if slots[i].band !in bands {
          bands := bands + [slots[i].band];
        }
      }
    }
  }

  function FirstSlot(slots: seq<PlannedSlot>, id: string): (slot: Option<PlannedSlot>)
    ensures slot.Some? ==> slot.value in slots && slot.value.slotId == id
    ensures slot.None? ==> forall s :: s in slots ==> s.slotId != id
  {
    if slots == [] then None else if slots[0].slotId == id then Some(slots[0]) else FirstSlot(slots[1..], id)
  }

  /** The plan of a completed slot; `None` is a planning error. */
  function PlanFor(callsign: string, slots: seq<PlannedSlot>, id: string): Option<Plan> {
    match FirstSlot(slots, id)
    case None => None
    case Some(completed) =>
      var end := SlotEnd(completed);
      var start := WindowStart(slots, end, QueryStart(completed.startsAt));
      if start >= end then None
      else Some(Plan(id, end, end + INGESTION_GRACE, callsign, start, end, BandsUpTo(slots, end, [])))
  }

  /** The slot before a confirmed one is complete, and so is a confirmed last one. */
  predicate IsCompleted(slots: seq<PlannedSlot>, confirmed: set<string>, i: nat)
    requires i < |slots|
  {
    if i + 1 < |slots| then slots[i + 1].slotId in confirmed else slots[i].slotId in confirmed
  }

  /** The plans of the completed slots below n, in slot order; one error spoils them all. */
  function PlansBelow(callsign: string, slots: seq<PlannedSlot>, confirmed: set<string>, n: nat): Option<seq<Plan>>
    requires n <= |slots|
  {
    if n == 0 then Some([])
    else
      match PlansBelow(callsign, slots, confirmed, n - 1)
      case None => None
      case Some(before) =>
        if !IsCompleted(slots, confirmed, n - 1) then Some(before)
        else
          match PlanFor(callsign, slots, slots[n - 1].slotId)
          case None => None
          case Some(plan) => Some(before + [plan])
  }

  function PlansFor(callsign: string, slots: seq<PlannedSlot>, confirmed: set<string>): Option<seq<Plan>> {
    PlansBelow(callsign, slots, confirmed, |slots|)
  }

  /** The slots below the index settle whether slot i is completed. */
  predicate Decided(slots: seq<PlannedSlot>, i: nat, index: nat) {
    i + 1 < index || (i + 1 == |slots| && index == |slots|)
  }

  /** Every completed slot's index, by the two ways in which a confirmation completes one. */
  method CompletedSlots(slots: seq<PlannedSlot>, confirmed: set<string>) returns (completed: set<nat>)
    ensures completed == set i: nat | i < |slots| && IsCompleted(slots, confirmed, i)
  {
    completed := {};
    for index := 0 to |slots|
      invariant forall i :: i in completed ==> i < |slots| && IsCompleted(slots, confirmed, i)
      invariant forall i: nat :: i < |slots| && IsCompleted(slots, confirmed, i) && Decided(slots, i, index) ==>
                  i in completed
    {
      if slots[index].slotId in confirmed {
        if index > 0 {
          completed := completed + {index - 1};
        }
        if index + 1 == |slots| {
          completed := completed + {index};
        }
      }
    }
  }

  // ----- what a plan covers -----

  /** A query from then to then, on these bands, leaves out nothing of the slot. */
  predicate Spans(from: Instant, end: Instant, bands: seq<Band>, slot: PlannedSlot) {
    from <= QueryStart(slot.startsAt) && SlotEnd(slot) <= end && slot.band in bands
  }

  lemma {:induction false} WindowSpans(slots: seq<PlannedSlot>, end: Instant, start: Instant, bands: seq<Band>,
                                       slot: PlannedSlot)
    ensures var from, all := WindowStart(slots, end, start), BandsUpTo(slots, end, bands);
            && from <= start && (forall b :: b in bands ==> b in all)
            && (slot in slots && SlotEnd(slot) <= end ==>
                  Spans(from, end, all, slot) && from <= QueryStart(slot.startsAt))
            && (from == start
                || exists s :: s in slots && SlotEnd(s) <= end && from == QueryStart(s.startsAt))
  {
    if slots != [] {
      hide QueryStart, SlotEnd;
      var first, rest := slots[0], slots[1..];
      var from := QueryStart(first.startsAt);
      var nextStart := if SlotEnd(first) <= end && from < start then from else start;
      var nextBands := if SlotEnd(first) <= end && first.band !in bands then bands + [first.band] else bands;
      WindowSpans(rest, end, nextStart, nextBands, slot);
      assert SlotEnd(first) <= end ==> nextStart <= from && first.band in nextBands;
      assert forall s :: s in slots <==> s == first || s in rest;
      assert WindowStart(slots, end, start) == WindowStart(rest, end, nextStart);
      assert BandsUpTo(slots, end, bands) == BandsUpTo(rest, end, nextBands);
    }
  }

  lemma {:induction false} BandsAreOfEndedSlots(slots: seq<PlannedSlot>, end: Instant, bands: seq<Band>, b: Band)
    ensures b in BandsUpTo(slots, end, bands) ==>
              b in bands || exists s :: s in slots && SlotEnd(s) <= end && s.band == b
  {
    if slots != [] && b in BandsUpTo(slots, end, bands) && b !in bands {
      hide SlotEnd;
      var first, rest := slots[0], slots[1..];
      var more := SlotEnd(first) <= end && first.band !in bands;
      BandsAreOfEndedSlots(rest, end, if more then bands + [first.band] else bands, b);
      assert first in slots && forall s :: s in rest ==> s in slots;
    }
  }

  /** A slot is asked for from its start, or from the even minute before it if it starts with a cycle. */
  lemma QueriesStartWithTheMinute(at: Instant)
    ensures var seconds := QueryStart(at);
            && at - SECOND <= seconds <= at
            && (seconds == at - SECOND <==> at % (120 * SECOND) == SECOND)
            && (seconds < at ==> seconds % (120 * SECOND) == 0)
  {
    EventRules.CycleStartsByTheClock(at);
    var q := at / (120 * SECOND);
    assert at == 120 * SECOND * q + at % (120 * SECOND);
  }

  /**
   A plan asks for every slot that has ended when its own has, and for no more than those; it exists exactly if the slot
   does and a query of it would not be empty, and is due five minutes after its end.
   */
  lemma {:induction false} PlanSpansTheEndedSlots(callsign: string, slots: seq<PlannedSlot>, id: string)
    ensures var plan := PlanFor(callsign, slots, id);
            plan.Some? ==>
              var p := plan.value;
              && (forall s :: s in slots && SlotEnd(s) <= p.windowEnd ==> Spans(p.windowStart, p.windowEnd, p.bands, s))
              && (exists s :: s in slots && SlotEnd(s) <= p.windowEnd && p.windowStart == QueryStart(s.startsAt))
              && (forall b :: b in p.bands ==> exists s :: s in slots && SlotEnd(s) <= p.windowEnd && s.band == b)
              && p.completedSlotId == id && p.callsign == callsign && p.segmentEndedAt == p.windowEnd
              && p.notBefore == p.windowEnd + 5 * 60 * SECOND && p.windowStart < p.windowEnd
    ensures PlanFor(callsign, slots, id).Some? <==>
              FirstSlot(slots, id).Some?
              && exists s :: s in slots && SlotEnd(s) <= SlotEnd(FirstSlot(slots, id).value)
                             && QueryStart(s.startsAt) < SlotEnd(FirstSlot(slots, id).value)
  {
    hide QueryStart, SlotEnd, WindowStart, BandsUpTo, Spans;
    var found := FirstSlot(slots, id);
    if found.Some? {
      var end, start := SlotEnd(found.value), QueryStart(found.value.startsAt);
      forall s | s in slots
        ensures SlotEnd(s) <= end ==> Spans(WindowStart(slots, end, start), end, BandsUpTo(slots, end, []), s)
        ensures SlotEnd(s) <= end ==> WindowStart(slots, end, start) <= QueryStart(s.startsAt)
      {
        WindowSpans(slots, end, start, [], s);
      }
      forall b | b in BandsUpTo(slots, end, [])
        ensures exists s :: s in slots && SlotEnd(s) <= end && s.band == b
      {
        BandsAreOfEndedSlots(slots, end, [], b);
      }
      WindowSpans(slots, end, start, [], found.value);
    }
  }

  // ----- nothing pending -----

  /** The slot that the plan of the slot at this position is made for: the first of its id. */
  function PlannedAt(slots: seq<PlannedSlot>, i: nat): (slot: PlannedSlot)
    requires i < |slots|
    ensures slot in slots && slot.slotId == slots[i].slotId
  {
    FirstSlot(slots, slots[i].slotId).value
  }

  ghost predicate DistinctSlots(slots: seq<PlannedSlot>) {
    forall i, j :: 0 <= i < j < |slots| ==> slots[i].slotId != slots[j].slotId
  }

  lemma PlannedWindow(callsign: string, slots: seq<PlannedSlot>, i: nat)
    requires i < |slots|
    ensures var plan := PlanFor(callsign, slots, slots[i].slotId);
            plan.Some? ==> plan.value.windowEnd == SlotEnd(PlannedAt(slots, i))
    ensures DistinctSlots(slots) ==> PlannedAt(slots, i) == slots[i]
  {
  }

  /** The plans are those of the completed slots. */
  lemma {:induction false} PlansAreOfCompletedSlots(callsign: string, slots: seq<PlannedSlot>, confirmed: set<string>,
                                                    n: nat, p: Plan)
    requires n <= |slots|
    ensures var plans := PlansBelow(callsign, slots, confirmed, n);
            plans.Some? ==>
              (p in plans.value <==>
                 exists i :: 0 <= i < n && IsCompleted(slots, confirmed, i)
                   && PlanFor(callsign, slots, slots[i].slotId) == Some(p))
  {
    if n > 0 {
      hide PlanFor, IsCompleted;
      PlansAreOfCompletedSlots(callsign, slots, confirmed, n - 1, p);
    }
  }

  lemma {:induction false} CompletedSlotsArePlanned(callsign: string, slots: seq<PlannedSlot>, confirmed: set<string>,
                                                    n: nat, i: nat)
    requires i < n <= |slots| && IsCompleted(slots, confirmed, i)
    ensures PlansBelow(callsign, slots, confirmed, n).Some? ==> PlanFor(callsign, slots, slots[i].slotId).Some?
  {
    hide PlanFor, IsCompleted;
    if i < n - 1 {
      CompletedSlotsArePlanned(callsign, slots, confirmed, n - 1, i);
    }
  }

  /**
   Nothing is pending exactly when the captured bound reaches the end of every slot planned for a completed one, which
   is the completed one itself if slot ids are distinct.
   */
  lemma NothingPendingIffAllCaptured(callsign: string, slots: seq<PlannedSlot>, confirmed: set<string>,
                                     through: Instant)
    ensures var plans := PlansFor(callsign, slots, confirmed);
            plans.Some? ==>
              (Pending(plans.value, Some(through)) == [] <==>
                 forall i :: 0 <= i < |slots| && IsCompleted(slots, confirmed, i) ==>
                   SlotEnd(PlannedAt(slots, i)) <= through)
    ensures DistinctSlots(slots) ==> forall i :: 0 <= i < |slots| ==> PlannedAt(slots, i) == slots[i]
  {
    forall i | 0 <= i < |slots|
      ensures var plan := PlanFor(callsign, slots, slots[i].slotId);
              plan.Some? ==> plan.value.windowEnd == SlotEnd(PlannedAt(slots, i))
      ensures DistinctSlots(slots) ==> PlannedAt(slots, i) == slots[i]
    {
      PlannedWindow(callsign, slots, i);
    }
    hide PlansBelow, PlanFor, IsCompleted, SlotEnd, DistinctSlots, Pending, PlannedAt;
    var plans := PlansFor(callsign, slots, confirmed);
    if plans.Some? {
      var pending := Pending(plans.value, Some(through));
      if pending != [] {
        var p := pending[0];
        assert p in pending;
        PlansAreOfCompletedSlots(callsign, slots, confirmed, |slots|, p);
      }
      forall i | 0 <= i < |slots| && IsCompleted(slots, confirmed, i) && SlotEnd(PlannedAt(slots, i)) > through
        ensures pending != []
      {
        CompletedSlotsArePlanned(callsign, slots, confirmed, |slots|, i);
        var p := PlanFor(callsign, slots, slots[i].slotId).value;
        PlansAreOfCompletedSlots(callsign, slots, confirmed, |slots|, p);
        assert p in pending;
      }
    }
  }
}
