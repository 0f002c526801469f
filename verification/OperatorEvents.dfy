/** The two reducers: loops over a log that keep a set of ids, an index and a slot vector. */
module OperatorEvents {
  import opened Prelude
  import opened EventTypes
  import opened EventLog
  import opened EventShapes
  import opened EventMemory

  datatype ReductionV2 = ReductionV2(
    lifecycle: Lifecycle, effectiveEvents: seq<EffectiveV2>, diagnostics: seq<Diagnostic>)

  datatype ReductionV3 = ReductionV3(
    lifecycle: Lifecycle, effectiveEvents: seq<EffectiveV3>, diagnostics: seq<Diagnostic>)

  /** What a schema-v2 log means. */
  function MeaningV2(initial: Lifecycle, events: seq<EventV2>): ReductionV2 {
    var ledger := Replay(initial, EntriesV2(events));
    ReductionV2(ledger.lifecycle, View(ledger.board), ledger.diagnostics)
  }

  /** What a schema-v3 log means. */
  function MeaningV3(initial: Lifecycle, events: seq<EventV3>): ReductionV3 {
    var ledger := Replay(initial, EntriesV3(events));
    ReductionV3(ledger.lifecycle, View(ledger.board), ledger.diagnostics)
  }

  lemma EntriesAppendV2(events: seq<EventV2>, e: EventV2)
    ensures EntriesV2(events + [e]) == EntriesV2(events) + [EntryV2(e)]
  {
  }

  lemma EntriesAppendV3(events: seq<EventV3>, e: EventV3)
    ensures EntriesV3(events + [e]) == EntriesV3(events) + [EntryV3(e)]
  {
  }

  lemma {:induction false} ReplayNextV2(initial: Lifecycle, events: seq<EventV2>, i: nat)
    requires i < |events|
    ensures EntriesV2(events[..i + 1]) == EntriesV2(events[..i]) + [EntryV2(events[i])]
    ensures Replay(initial, EntriesV2(events[..i + 1])) ==
              Extend(Replay(initial, EntriesV2(events[..i])), EntriesV2(events[..i]), EntryV2(events[i]))
  {
    hide Replay, Extend, EntriesV2;
    TakeNext(events, i);
    EntriesAppendV2(events[..i], events[i]);
    ReplayAppend(initial, EntriesV2(events[..i]), EntryV2(events[i]));
  }

  lemma {:induction false} ReplayNextV3(initial: Lifecycle, events: seq<EventV3>, i: nat)
    requires i < |events|
    ensures EntriesV3(events[..i + 1]) == EntriesV3(events[..i]) + [EntryV3(events[i])]
    ensures Replay(initial, EntriesV3(events[..i + 1])) ==
              Extend(Replay(initial, EntriesV3(events[..i])), EntriesV3(events[..i]), EntryV3(events[i]))
  {
    hide Replay, Extend, EntriesV3;
    TakeNext(events, i);
    EntriesAppendV3(events[..i], events[i]);
    ReplayAppend(initial, EntriesV3(events[..i]), EntryV3(events[i]));
  }

  /** The fallback for uncorrectable payloads is never taken: earlier branches consume them. */
  lemma PlainEventsAreCorrectableV2(p: PayloadV2)
    ensures CorrectablePayloadV2(p).Some? <==> !IsLifecycleV2(p) && !p.EventCorrected?
  {
  }

  lemma PlainEventsAreCorrectableV3(p: PayloadV3)
    ensures CorrectablePayloadV3(p).Some? <==> !IsLifecycleV3(p) && !IsOperationalV3(p) && !p.EventCorrected?
  {
  }

  /** A correction without a reason is refused for its shape, so the reducers' later check for one never fires. */
  lemma CorrectionsHaveReasons(e: EventV2, f: EventV3)
    ensures e.payload.EventCorrected? && IsBlank(e.payload.why) ==> ShapeErrorV2(e).Some?
    ensures f.payload.EventCorrected? && IsBlank(f.payload.why) ==> ShapeErrorV3(f).Some?
  {
  }

  lemma FactCasesV2(e: EventV2)
    ensures ShapeErrorV2(e).Some? ==> FactV2(e) == Malformed(ShapeErrorV2(e).value)
    ensures ShapeErrorV2(e).None? && IsLifecycleV2(e.payload) ==> FactV2(e) == Transition(StepV2(e.payload))
    ensures ShapeErrorV2(e).None? && e.payload.EventCorrected? ==>
              FactV2(e) == Correction(e.payload.targetEventId,
                match e.payload.correction
                case Retract => None
                case Replace(r) => Some(EffectiveFromReplacementV2(e.payload.targetEventId, e, r)))
    ensures ShapeErrorV2(e).None? && !IsLifecycleV2(e.payload) && !e.payload.EventCorrected? ==>
              && CorrectablePayloadV2(e.payload).Some?
              && FactV2(e) == Original(EffectiveFromOriginalV2(e, CorrectablePayloadV2(e.payload).value))
  {
  }

  method ReduceOperatorEventsV2(initial: Lifecycle, events: seq<EventV2>) returns (reduction: ReductionV2)
    ensures reduction == MeaningV2(initial, events)
  {
    var lifecycle := initial;
    var diagnostics: seq<Diagnostic> := [];
    var seenIds: set<string> := {};
    var originals: map<string, nat> := map[];
    var effective: seq<Option<EffectiveV2>> := [];
    ghost var ledger := Replay<EffectiveV2>(initial, []);
    Empty(ledger);
    hide Replay, Extend, InMemory, View, Values, ShapeErrorV2, EntriesV2, ApplyTransitionV2, Next, StepV2, FactV2,
         EffectiveFromReplacementV2, EffectiveFromOriginalV2, CorrectablePayloadV2;

    for i := 0 to |events|
      invariant ledger == Replay(initial, EntriesV2(events[..i]))
      invariant lifecycle == ledger.lifecycle && diagnostics == ledger.diagnostics
      invariant InMemory(ledger, EntriesV2(events[..i]), seenIds, originals, effective)
    {
      var event := events[i];
      ghost var before, log, seen := ledger, EntriesV2(events[..i]), seenIds;
      InMemoryLength(before, log, seen, originals, effective);
      ledger := Extend(before, log, EntryV2(event));
      ReplayNextV2(initial, events, i);
      FactCasesV2(event);

      if event.eventId in seenIds {
        diagnostics := diagnostics + [Diagnostic(event.eventId, None, DuplicateEventId, IdDuplicated)];
        OnDuplicate(before, log, EntryV2(event), seen, originals, effective);
        continue;
      }
      seenIds := seenIds + {event.eventId};
      var shape := ShapeErrorV2(event);
      if shape.Some? {
        diagnostics := diagnostics + [Diagnostic(event.eventId, None, InvalidEventShape, shape.value)];
        OnMalformed(before, log, EntryV2(event), seen, originals, effective);
        continue;
      }
      if IsLifecycleV2(event.payload) {
        OnTransition(before, log, EntryV2(event), seen, originals, effective);
        TransitionsAgreeV2(lifecycle, event.payload);
        match ApplyTransitionV2(lifecycle, event.payload) {
          case Ok(next) => lifecycle := next;
          case Err(error) =>
            diagnostics := diagnostics + [Diagnostic(event.eventId, None, InvalidLifecycleTransition, error)];
        }
        continue;
      }
      if lifecycle == Ended || lifecycle == Abandoned {
        diagnostics := diagnostics + [Diagnostic(event.eventId, None, InvalidLifecycleTransition, AfterTerminal)];
        OnTerminal(before, log, EntryV2(event), seen, originals, effective);
        continue;
      }
      if event.payload.EventCorrected? {
        OnCorrection(before, log, EntryV2(event), seen, originals, effective);
        var target := event.payload.targetEventId;
        if target !in originals {
          diagnostics := diagnostics + [Diagnostic(event.eventId, Some(target), InvalidCorrectionTarget,
                                                   TargetNotEarlier)];
          continue;
        }
        match event.payload.correction {
          case Retract => effective := effective[originals[target] := None];
          case Replace(replacement) =>
            effective := effective[originals[target] := Some(EffectiveFromReplacementV2(target, event, replacement))];
        }
      } else {
        OnOriginal(before, log, EntryV2(event), seen, originals, effective);
        var payload := CorrectablePayloadV2(event.payload);
        originals := originals[event.eventId := |effective|];
        effective := effective + [Some(EffectiveFromOriginalV2(event, payload.value))];
      }
    }
    assert events[..|events|] == events;
    ViewFromMemory(ledger, EntriesV2(events), seenIds, originals, effective);
    reduction := ReductionV2(lifecycle, Values(effective), diagnostics);
  }

  lemma FactCasesV3(e: EventV3)
    ensures ShapeErrorV3(e).Some? ==> FactV3(e) == Malformed(ShapeErrorV3(e).value)
    ensures ShapeErrorV3(e).None? && IsLifecycleV3(e.payload) ==> FactV3(e) == Transition(StepV3(e.payload))
    ensures ShapeErrorV3(e).None? && IsOperationalV3(e.payload) ==> FactV3(e) == Operational
    ensures ShapeErrorV3(e).None? && e.payload.EventCorrected? ==>
              FactV3(e) == Correction(e.payload.targetEventId,
                match e.payload.correction
                case Retract => None
                case Replace(r) => Some(EffectiveFromReplacementV3(e.payload.targetEventId, e, r)))
    ensures ShapeErrorV3(e).None? && !IsLifecycleV3(e.payload) && !IsOperationalV3(e.payload)
              && !e.payload.EventCorrected? ==>
              && CorrectablePayloadV3(e.payload).Some?
              && FactV3(e) == Original(EffectiveFromOriginalV3(e, CorrectablePayloadV3(e.payload).value))
  {
  }

  method ReduceOperatorEventsV3(initial: Lifecycle, events: seq<EventV3>) returns (reduction: ReductionV3)
    ensures reduction == MeaningV3(initial, events)
  {
    var lifecycle := initial;
    var diagnostics: seq<Diagnostic> := [];
    var seenIds: set<string> := {};
    var originals: map<string, nat> := map[];
    var effective: seq<Option<EffectiveV3>> := [];
    ghost var ledger := Replay<EffectiveV3>(initial, []);
    Empty(ledger);
    hide Replay, Extend, InMemory, View, Values, ShapeErrorV3, EntriesV3, ApplyTransitionV3, Next, StepV3, FactV3,
         EffectiveFromReplacementV3, EffectiveFromOriginalV3, CorrectablePayloadV3;

    for i := 0 to |events|
      invariant ledger == Replay(initial, EntriesV3(events[..i]))
      invariant lifecycle == ledger.lifecycle && diagnostics == ledger.diagnostics
      invariant InMemory(ledger, EntriesV3(events[..i]), seenIds, originals, effective)
    {
      var event := events[i];
      ghost var before, log, seen := ledger, EntriesV3(events[..i]), seenIds;
      InMemoryLength(before, log, seen, originals, effective);
      ledger := Extend(before, log, EntryV3(event));
      ReplayNextV3(initial, events, i);
      FactCasesV3(event);

      if event.eventId in seenIds {
        diagnostics := diagnostics + [Diagnostic(event.eventId, None, DuplicateEventId, IdDuplicated)];
        OnDuplicate(before, log, EntryV3(event), seen, originals, effective);
        continue;
      }
      seenIds := seenIds + {event.eventId};
      var shape := ShapeErrorV3(event);
      if shape.Some? {
        diagnostics := diagnostics + [Diagnostic(event.eventId, None, InvalidEventShape, shape.value)];
        OnMalformed(before, log, EntryV3(event), seen, originals, effective);
        continue;
      }
      if IsLifecycleV3(event.payload) {
        OnTransition(before, log, EntryV3(event), seen, originals, effective);
        TransitionsAgreeV3(lifecycle, event.payload);
        match ApplyTransitionV3(lifecycle, event.payload) {
          case Ok(next) => lifecycle := next;
          case Err(error) =>
            diagnostics := diagnostics + [Diagnostic(event.eventId, None, InvalidLifecycleTransition, error)];
        }
        continue;
      }
      if lifecycle == Ended || lifecycle == Abandoned {
        diagnostics := diagnostics + [Diagnostic(event.eventId, None, InvalidLifecycleTransition, AfterTerminal)];
        OnTerminal(before, log, EntryV3(event), seen, originals, effective);
        continue;
      }
      if IsOperationalV3(event.payload) && lifecycle != Running {
        diagnostics := diagnostics + [Diagnostic(event.eventId, None, InvalidLifecycleTransition, RequiresRunning)];
        OnOperational(before, log, EntryV3(event), seen, originals, effective);
        continue;
      }
      if IsOperationalV3(event.payload) {
        OnOperational(before, log, EntryV3(event), seen, originals, effective);
        continue;
      }
      if event.payload.EventCorrected? {
        OnCorrection(before, log, EntryV3(event), seen, originals, effective);
        var target := event.payload.targetEventId;
        if target !in originals {
          diagnostics := diagnostics + [Diagnostic(event.eventId, Some(target), InvalidCorrectionTarget,
                                                   TargetNotEarlier)];
          continue;
        }
        match event.payload.correction {
          case Retract => effective := effective[originals[target] := None];
          case Replace(replacement) =>
            effective := effective[originals[target] := Some(EffectiveFromReplacementV3(target, event, replacement))];
        }
      } else {
        OnOriginal(before, log, EntryV3(event), seen, originals, effective);
        var payload := CorrectablePayloadV3(event.payload);
        originals := originals[event.eventId := |effective|];
        effective := effective + [Some(EffectiveFromOriginalV3(event, payload.value))];
      }
    }
    assert events[..|events|] == events;
    ViewFromMemory(ledger, EntriesV3(events), seenIds, originals, effective);
    reduction := ReductionV3(lifecycle, Values(effective), diagnostics);
  }
}
