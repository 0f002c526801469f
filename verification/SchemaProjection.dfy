/** Projecting schema-v3 events back onto schema v2, and when that keeps their meaning. */
module SchemaProjection {
  import opened Prelude
  import opened Records
  import opened EventTypes
  import opened EventLog
  import opened EventShapes
  import opened EventLogProperties
  import opened EventMemory
  import opened OperatorEvents
  import opened SchemaUpgrade

  const ARMED_NOTE: string := "Antenna ready for the armed WSPR cycle."

  function ProjectCorrection(c: CorrectionV3): Option<CorrectionV2> {
    match c
    case Retract => Some(CorrectionV2.Retract)
    case Replace(r) =>
      if r.payload.SignalStateConfirmed? then None
      else
        var payload := match r.payload
          case AntennaStateConfirmed(antenna, note) => CorrectableV2.AntennaStateConfirmed(antenna, note)
          case SlotMissed(reason) => CorrectableV2.SlotMissed(reason)
          case SlotBad(reason) => CorrectableV2.SlotBad(reason)
          case NoteAdded(note) => CorrectableV2.NoteAdded(note);
        Some(CorrectionV2.Replace(ReplacementV2(r.occurredAt, r.timeBasis, r.uncertaintySeconds, r.slotId, payload)))
  }

  function ProjectPayload(p: PayloadV3): Option<PayloadV2> {
    match p
    case SessionStarted(note) => Some(PayloadV2.SessionStarted(note))
    case SessionInterrupted(reason) => Some(PayloadV2.SessionInterrupted(reason))
    case InterruptionDetected(reason) => Some(PayloadV2.InterruptionDetected(reason))
    case SessionResumed(note) => Some(PayloadV2.SessionResumed(note))
    case SessionEnded(reason) => Some(PayloadV2.SessionEnded(reason))
    case SessionAbandoned(reason) => Some(PayloadV2.SessionAbandoned(reason))
    case AntennaSwitchStarted(_) => None
    case WsprCycleArmed(antenna, _, _) => Some(PayloadV2.AntennaStateConfirmed(antenna, Some(ARMED_NOTE)))
    case AntennaStateConfirmed(antenna, note) => Some(PayloadV2.AntennaStateConfirmed(antenna, note))
    case SignalStateConfirmed(_) => None
    case SlotMissed(reason) => Some(PayloadV2.SlotMissed(reason))
    case SlotBad(reason) => Some(PayloadV2.SlotBad(reason))
    case NoteAdded(note) => Some(PayloadV2.NoteAdded(note))
    case EventCorrected(target, correction, reason) =>
      match ProjectCorrection(correction)
      case None => None
      case Some(projected) => Some(PayloadV2.EventCorrected(target, projected, reason))
  }

  function ProjectEvent(e: EventV3): Option<EventV2> {
    match ProjectPayload(e.payload)
    case None => None
    case Some(payload) =>
      Some(EventV2(e.meta.(schemaVersion := SCHEMA_V2), e.eventId, e.occurredAt, e.timeBasis,
                   e.uncertaintySeconds, e.slotId, payload))
  }

  function ProjectEvents(events: seq<EventV3>): seq<EventV2> {
    if events == [] then []
    else
      var n := |events| - 1;
      ProjectEvents(events[..n]) + (match ProjectEvent(events[n]) case None => [] case Some(p) => [p])
  }

  /** Projecting an upgraded event gives the original back, up to its schema version. */
  lemma ProjectUndoesUpgrade(e: EventV2)
    ensures ProjectEvent(UpgradeEvent(e)) == Some(e.(meta := e.meta.(schemaVersion := SCHEMA_V2)))
  {
    if e.payload.EventCorrected? {
      var c := e.payload.correction;
      assert ProjectCorrection(UpgradeCorrection(c)) == Some(c);
      assert ProjectPayload(UpgradePayload(e.payload)) == Some(e.payload);
    }
  }

  // ----- step one: the projected log with the dropped events still in place -----

  predicate IsArmed(e: EventV3) {
    e.payload.WsprCycleArmed?
  }

  /** No signal-state confirmation, neither as an event nor as a replacement. */
  predicate NoSignal(e: EventV3) {
    && !e.payload.SignalStateConfirmed?
    && (e.payload.EventCorrected? && e.payload.correction.Replace? ==>
          !e.payload.correction.replacement.payload.SignalStateConfirmed?)
  }

  function ProjectedEntry(e: EventV3): Entry<EffectiveV2> {
    match ProjectEvent(e)
    case Some(p) => EntryV2(p)
    case None => Entry(e.eventId, Operational)
  }

  function ProjectedEntries(events: seq<EventV3>): (log: seq<Entry<EffectiveV2>>)
    ensures |log| == |events|
    ensures forall i :: 0 <= i < |log| ==> log[i] == ProjectedEntry(events[i])
  {
    seq(|events|, i requires 0 <= i < |events| => ProjectedEntry(events[i]))
  }

  /** The confirmation that stands in schema v2 for an armed cycle. */
  function ArmedConfirmation(e: EventV3): EffectiveV2
    requires IsArmed(e)
  {
    EffectiveV2(e.meta.sessionId, e.eventId, e.eventId, e.meta.recordedAt, e.occurredAt, e.timeBasis,
                e.uncertaintySeconds, e.slotId,
                CorrectableV2.AntennaStateConfirmed(e.payload.antennaLabel, Some(ARMED_NOTE)))
  }

  /** An unarmed event classifies alike in both schemas; an armed one becomes a confirmation. */
  lemma ProjectedFact(e: EventV3)
    requires NoSignal(e)
    ensures !IsArmed(e) && ShapeErrorV3(e).None? ==> FactV3(e) == UpgradeFact(ProjectedEntry(e).fact)
    ensures IsArmed(e) && ShapeErrorV3(e).None? ==> ProjectedEntry(e).fact == Original(ArmedConfirmation(e))
  {
  }

  /**
   The timeline lists, per v3 position, what the projected log holds there: the armed
   confirmation, or exactly the evidence whose upgrade the v3 log holds.
   */
  ghost predicate IsTimeline(events: seq<EventV3>, board: seq<Cell<EffectiveV3>>, timeline: seq<Cell<EffectiveV2>>) {
    && |events| == |board| == |timeline|
    && forall t :: 0 <= t < |events| ==>
        if IsArmed(events[t]) then board[t] == Blank && timeline[t] == Holds(Some(ArmedConfirmation(events[t])))
        else board[t] == UpgradeCell(timeline[t])
  }

  lemma ExtendTimeline(l3: Ledger<EffectiveV3>, l2: Ledger<EffectiveV2>, events: seq<EventV3>, e: EventV3)
    requires IsTimeline(events, l3.board, l2.board) && l2.lifecycle == l3.lifecycle && l2.diagnostics == []
    requires NoSignal(e)
    requires Extend(l3, EntriesV3(events), EntryV3(e)).diagnostics == []
    ensures var n3 := Extend(l3, EntriesV3(events), EntryV3(e));
            var n2 := Extend(l2, ProjectedEntries(events), ProjectedEntry(e));
            IsTimeline(events + [e], n3.board, n2.board) && n2.lifecycle == n3.lifecycle && n2.diagnostics == []
  {
    hide Position, Next, ShapeErrorV3, ArmedConfirmation, UpgradeEffective;
    ProjectedFact(e);
    ProjectedIds(events);
    hide ProjectedEntry;
    var log3, log2 := EntriesV3(events), ProjectedEntries(events);
    SamePosition(log3, log2, e.eventId);
    assert ProjectedEntry(e).id == e.eventId;
    if e.payload.EventCorrected? {
      SamePosition(log3, log2, e.payload.targetEventId);
    }
  }

  lemma ProjectedIds(events: seq<EventV3>)
    ensures forall i :: 0 <= i < |events| ==> EntriesV3(events)[i].id == ProjectedEntries(events)[i].id
  {
  }

  lemma {:induction false} ReplayTimeline(initial: Lifecycle, events: seq<EventV3>)
    requires Replay(initial, EntriesV3(events)).diagnostics == []
    requires forall i :: 0 <= i < |events| ==> NoSignal(events[i])
    ensures var l3, l2 := Replay(initial, EntriesV3(events)), Replay(initial, ProjectedEntries(events));
            IsTimeline(events, l3.board, l2.board) && l2.lifecycle == l3.lifecycle && l2.diagnostics == []
  {
    if events != [] {
      hide Replay, Extend, EntriesV3, ProjectedEntries, IsTimeline, NoSignal, ProjectedEntry;
      var n := |events| - 1;
      SplitLast(events);
      EntriesAppendV3(events[..n], events[n]);
      ProjectedAppend(events[..n], events[n]);
      ReplayAppend(initial, EntriesV3(events[..n]), EntryV3(events[n]));
      ReplayAppend(initial, ProjectedEntries(events[..n]), ProjectedEntry(events[n]));
      DiagnosticsOnlyGrow(initial, EntriesV3(events[..n]), [EntryV3(events[n])]);
      ReplayTimeline(initial, events[..n]);
      ExtendTimeline(Replay(initial, EntriesV3(events[..n])), Replay(initial, ProjectedEntries(events[..n])),
                     events[..n], events[n]);
    }
  }

  lemma ProjectedAppend(events: seq<EventV3>, e: EventV3)
    ensures ProjectedEntries(events + [e]) == ProjectedEntries(events) + [ProjectedEntry(e)]
  {
  }

  // ----- step two: leaving the dropped events out -----

  function DropOperational<E>(log: seq<Entry<E>>): (kept: seq<Entry<E>>) {
    if log == [] then []
    else
      var n := |log| - 1;
      DropOperational(log[..n]) + (if log[n].fact.Operational? then [] else [log[n]])
  }

  /**
   Leaving accepted operational events out of a clean log changes nothing: both logs are
   represented by the same index and the same slots.
   */
  lemma {:induction false} DroppingKeepsMemory<E>(initial: Lifecycle, log: seq<Entry<E>>)
    returns (seen: set<string>, kept: set<string>, originals: map<string, nat>, effective: seq<Option<E>>)
    requires Replay(initial, log).diagnostics == []
    ensures kept <= seen
    ensures InMemory(Replay(initial, log), log, seen, originals, effective)
    ensures InMemory(Replay(initial, DropOperational(log)), DropOperational(log), kept, originals, effective)
    ensures Replay(initial, DropOperational(log)).lifecycle == Replay(initial, log).lifecycle
    ensures Replay(initial, DropOperational(log)).diagnostics == []
  {
    if log == [] {
      seen, kept, originals, effective := {}, {}, map[], [];
      Empty(Replay(initial, log));
    } else {
      hide Replay, Extend, InMemory, Next, IsTerminal, DropOperational;
      var n := |log| - 1;
      var e, short := log[n], DropOperational(log[..n]);
      var was, wasShort := Replay(initial, log[..n]), Replay(initial, short);
      SplitLast(log);
      assert e.fact.Operational? ==> DropOperational(log[..n] + [e]) == DropOperational(log[..n]);
      assert !e.fact.Operational? ==> DropOperational(log[..n] + [e]) == DropOperational(log[..n]) + [e];
      DiagnosticsOnlyGrow(initial, log[..n], [e]);
      seen, kept, originals, effective := DroppingKeepsMemory(initial, log[..n]);
      ReplayAppend(initial, log[..n], e);
      ReplayAppend(initial, short, e);
      InMemoryLength(was, log[..n], seen, originals, effective);
      InMemoryLength(wasShort, short, kept, originals, effective);
      AcceptedEntry(was, log[..n], e, seen, originals, effective);
      seen, kept, originals, effective :=
        KeepInStep(was, log[..n], wasShort, short, e, seen, kept, originals, effective);
    }
  }

  /** Only an event that is fresh and well formed leaves a clean log clean. */
  lemma AcceptedEntry<E>(before: Ledger<E>, log: seq<Entry<E>>, e: Entry<E>,
                         seen: set<string>, originals: map<string, nat>, effective: seq<Option<E>>)
    requires InMemory(before, log, seen, originals, effective)
    requires Extend(before, log, e).diagnostics == []
    ensures e.id !in seen && !e.fact.Malformed?
    ensures before.diagnostics == []
    ensures e.fact.Transition? ==> Next(before.lifecycle, e.fact.step).Some?
    ensures !e.fact.Transition? ==> !IsTerminal(before.lifecycle)
    ensures e.fact.Operational? ==> before.lifecycle == Running
    ensures e.fact.Correction? ==> e.fact.target in originals
  {
    hide Held, Rank, Position;
  }

  lemma KeepInStep<E>(was: Ledger<E>, log: seq<Entry<E>>, wasShort: Ledger<E>, short: seq<Entry<E>>, e: Entry<E>,
                      seen: set<string>, kept: set<string>, originals: map<string, nat>, effective: seq<Option<E>>)
    returns (seen': set<string>, kept': set<string>, originals': map<string, nat>, effective': seq<Option<E>>)
    requires InMemory(was, log, seen, originals, effective) && InMemory(wasShort, short, kept, originals, effective)
    requires kept <= seen && e.id !in seen && !e.fact.Malformed?
    requires |was.board| == |log| && |wasShort.board| == |short|
    requires was.lifecycle == wasShort.lifecycle && was.diagnostics == wasShort.diagnostics == []
    requires e.fact.Transition? ==> Next(was.lifecycle, e.fact.step).Some?
    requires !e.fact.Transition? ==> !IsTerminal(was.lifecycle)
    requires e.fact.Operational? ==> was.lifecycle == Running
    requires e.fact.Correction? ==> e.fact.target in originals
    ensures kept' <= seen'
    ensures InMemory(Extend(was, log, e), log + [e], seen', originals', effective')
    ensures e.fact.Operational? ==>
              InMemory(wasShort, short, kept', originals', effective')
                && Extend(was, log, e).lifecycle == wasShort.lifecycle
    ensures !e.fact.Operational? ==>
              && InMemory(Extend(wasShort, short, e), short + [e], kept', originals', effective')
              && Extend(was, log, e).lifecycle == Extend(wasShort, short, e).lifecycle
              && Extend(wasShort, short, e).diagnostics == []
  {
    hide InMemory, Extend, Next, IsTerminal;
    seen', kept', originals', effective' := seen + {e.id}, kept + {e.id}, originals, effective;
    match e.fact {
      case Transition(_) =>
        OnTransition(was, log, e, seen, originals, effective);
        OnTransition(wasShort, short, e, kept, originals, effective);
      case Operational =>
        kept' := kept;
        OnOperational(was, log, e, seen, originals, effective);
      case Correction(target, replacement) =>
        OnCorrection(was, log, e, seen, originals, effective);
        OnCorrection(wasShort, short, e, kept, originals, effective);
        effective' := effective[originals[target] := replacement];
      case Original(value) =>
        OnOriginal(was, log, e, seen, originals, effective);
        OnOriginal(wasShort, short, e, kept, originals, effective);
        originals', effective' := originals[e.id := |effective|], effective + [Some(value)];
      case Malformed(_) =>
        assert false;
    }
  }

  lemma {:induction false} ProjectedLogDrops(events: seq<EventV3>)
    ensures EntriesV2(ProjectEvents(events)) == DropOperational(ProjectedEntries(events))
  {
    if events != [] {
      hide FactV2;
      var n := |events| - 1;
      ProjectedLogDrops(events[..n]);
      assert ProjectedEntries(events)[..n] == ProjectedEntries(events[..n]);
      match ProjectEvent(events[n]) {
        case None =>
        case Some(p) => NeverOperational(p);
      }
    }
  }

  lemma NeverOperational(e: EventV2)
    ensures !FactV2(e).Operational?
  {
  }

  /**
   A clean v3 log without signal confirmations projects to a clean v2 log with the same
   lifecycle, whose effective view is the v3 view with one confirmation more for every armed
   cycle, each at its own place in log order.
   */
  lemma ProjectionKeepsMeaning(initial: Lifecycle, events: seq<EventV3>)
    returns (timeline: seq<Cell<EffectiveV2>>)
    requires MeaningV3(initial, events).diagnostics == []
    requires forall i :: 0 <= i < |events| ==> NoSignal(events[i])
    ensures MeaningV2(initial, ProjectEvents(events)).diagnostics == []
    ensures MeaningV2(initial, ProjectEvents(events)).lifecycle == MeaningV3(initial, events).lifecycle
    ensures MeaningV2(initial, ProjectEvents(events)).effectiveEvents == View(timeline)
    ensures IsTimeline(events, Replay(initial, EntriesV3(events)).board, timeline)
  {
    hide Replay, View, Values, InMemory, IsTimeline, NoSignal, EntriesV2, EntriesV3, ProjectedEntries;
    var log := ProjectedEntries(events);
    timeline := Replay(initial, log).board;
    ReplayTimeline(initial, events);
    ProjectedLogDrops(events);
    var seen, kept, originals, effective := DroppingKeepsMemory(initial, log);
    ViewFromMemory(Replay(initial, log), log, seen, originals, effective);
    ViewFromMemory(Replay(initial, DropOperational(log)), DropOperational(log), kept, originals, effective);
  }

  // ----- lifecycle agreement for arbitrary logs -----

  /** The id occurs before position k, but only on events that the projection drops. */
  ghost predicate OnlyDroppedBefore(events: seq<EventV3>, k: nat)
    requires k < |events|
  {
    && (exists j :: 0 <= j < k && events[j].eventId == events[k].eventId)
    && (forall j :: 0 <= j < k && events[j].eventId == events[k].eventId ==> ProjectEvent(events[j]).None?)
  }

  /** Dropping unmasks the event: v3 refuses it for its id, v2 would move the lifecycle on it. */
  ghost predicate Unmasked(initial: Lifecycle, events: seq<EventV3>, k: nat)
    requires k < |events|
  {
    && OnlyDroppedBefore(events, k)
    && FactV3(events[k]).Transition?
    && Next(MeaningV3(initial, events[..k]).lifecycle, FactV3(events[k]).step).Some?
  }

  ghost predicate LifecyclesAgree(initial: Lifecycle, events: seq<EventV3>) {
    MeaningV2(initial, ProjectEvents(events)).lifecycle == MeaningV3(initial, events).lifecycle
  }

  /** When an id is new to each of the two logs. */
  lemma {:induction false} ProjectedPositions(events: seq<EventV3>, id: string)
    ensures Position(EntriesV3(events), id) == |events| <==> forall j :: 0 <= j < |events| ==> events[j].eventId != id
    ensures |EntriesV2(ProjectEvents(events))| == |ProjectEvents(events)|
    ensures Position(EntriesV2(ProjectEvents(events)), id) == |ProjectEvents(events)| <==>
              forall j :: 0 <= j < |events| && events[j].eventId == id ==> ProjectEvent(events[j]).None?
  {
    var entries, projected := EntriesV3(events), EntriesV2(ProjectEvents(events));
    assert forall i :: 0 <= i < |entries| ==> entries[i].id == events[i].eventId;
    assert forall i :: 0 <= i < |projected| ==> projected[i].id == ProjectEvents(events)[i].eventId;
    ProjectedIdsComeFromLog(events, id);
  }

  lemma {:induction false} ProjectedIdsComeFromLog(events: seq<EventV3>, id: string)
    ensures (exists i :: 0 <= i < |ProjectEvents(events)| && ProjectEvents(events)[i].eventId == id) <==>
            (exists j :: 0 <= j < |events| && events[j].eventId == id && ProjectEvent(events[j]).Some?)
  {
    if events != [] {
      var n := |events| - 1;
      var before, all := ProjectEvents(events[..n]), ProjectEvents(events);
      hide ProjectPayload;
      ProjectedIdsComeFromLog(events[..n], id);
      SplitLast(events);
      ProjectAppend(events[..n], events[n]);
      assert forall i :: 0 <= i < |before| ==> all[i] == before[i];
      if ProjectEvent(events[n]).Some? {
        assert all[|before|].eventId == events[n].eventId;
      }
    }
  }

  lemma {:induction false} ProjectAppend(events: seq<EventV3>, e: EventV3)
    ensures ProjectEvent(e).None? ==> ProjectEvents(events + [e]) == ProjectEvents(events)
    ensures ProjectEvent(e).Some? ==> ProjectEvents(events + [e]) == ProjectEvents(events) + [ProjectEvent(e).value]
  {
    assert (events + [e])[..|events|] == events;
  }

  /** From agreeing lifecycles, one more event keeps agreement exactly when it is not unmasked. */
  lemma OneMoreAgrees(initial: Lifecycle, events: seq<EventV3>, e: EventV3)
    requires LifecyclesAgree(initial, events)
    ensures LifecyclesAgree(initial, events + [e]) <==> !Unmasked(initial, events + [e], |events|)
  {
    hide Replay, Extend, View, EntriesV2, EntriesV3, FactV2, FactV3, ProjectEvents, ProjectEvent, Position;
    var projected := ProjectEvents(events);
    assert (events + [e])[..|events|] == events;
    ProjectAppend(events, e);
    EntriesAppendV3(events, e);
    ReplayAppend(initial, EntriesV3(events), EntryV3(e));
    ProjectedPositions(events, e.eventId);
    ExtendLifecycle(Replay(initial, EntriesV3(events)), EntriesV3(events), EntryV3(e));
    if ProjectEvent(e).None? {
      DroppedEventsKeepLifecycle(e);
    } else {
      var p := ProjectEvent(e).value;
      EntriesAppendV2(projected, p);
      ReplayAppend(initial, EntriesV2(projected), EntryV2(p));
      ExtendLifecycle(Replay(initial, EntriesV2(projected)), EntriesV2(projected), EntryV2(p));
      ProjectedTransitions(e, p);
      ProjectionKeepsId(e, p);
    }
  }

  lemma ProjectionKeepsId(e: EventV3, p: EventV2)
    requires ProjectEvent(e) == Some(p)
    ensures p.eventId == e.eventId
  {
  }

  ghost predicate AgreeThroughout(initial: Lifecycle, events: seq<EventV3>) {
    forall n :: 0 <= n <= |events| ==> LifecyclesAgree(initial, events[..n])
  }

  ghost predicate NothingUnmasked(initial: Lifecycle, events: seq<EventV3>) {
    forall k :: 0 <= k < |events| ==> !Unmasked(initial, events, k)
  }

  lemma AgreeThroughoutAppend(initial: Lifecycle, events: seq<EventV3>, e: EventV3)
    ensures AgreeThroughout(initial, events) ==> LifecyclesAgree(initial, events)
    ensures AgreeThroughout(initial, events + [e]) <==>
              AgreeThroughout(initial, events) && LifecyclesAgree(initial, events + [e])
  {
    hide LifecyclesAgree;
    var longer := events + [e];
    assert events[..|events|] == events && longer[..|longer|] == longer;
    forall n | 0 <= n <= |events|
      ensures longer[..n] == events[..n]
    {
    }
  }

  lemma NothingUnmaskedAppend(initial: Lifecycle, events: seq<EventV3>, e: EventV3)
    ensures NothingUnmasked(initial, events + [e]) <==>
              NothingUnmasked(initial, events) && !Unmasked(initial, events + [e], |events|)
  {
    hide MeaningV3, FactV3, ProjectEvent, Next;
    forall k | 0 <= k < |events|
      ensures Unmasked(initial, events + [e], k) <==> Unmasked(initial, events, k)
    {
      assert (events + [e])[..k] == events[..k];
    }
  }

  /** The lifecycles agree after every prefix of a log exactly when the projection unmasks no event of it. */
  lemma {:induction false} LifecyclesAgreeIffNothingUnmasked(initial: Lifecycle, events: seq<EventV3>)
    ensures AgreeThroughout(initial, events) <==> NothingUnmasked(initial, events)
  {
    if events == [] {
      EmptyLogs();
    } else {
      var m := |events| - 1;
      hide AgreeThroughout, NothingUnmasked, LifecyclesAgree, Unmasked;
      LifecyclesAgreeIffNothingUnmasked(initial, events[..m]);
      SplitLast(events);
      AgreeThroughoutAppend(initial, events[..m], events[m]);
      NothingUnmaskedAppend(initial, events[..m], events[m]);
      if LifecyclesAgree(initial, events[..m]) {
        OneMoreAgrees(initial, events[..m], events[m]);
      }
    }
  }

  ghost predicate DistinctIds(events: seq<EventV3>) {
    forall i, j :: 0 <= i < j < |events| ==> events[i].eventId != events[j].eventId
  }

  /** Whatever else a log contains, distinct ids are enough for the lifecycles to agree. */
  lemma ProjectionKeepsLifecycle(initial: Lifecycle, events: seq<EventV3>)
    requires DistinctIds(events)
    ensures LifecyclesAgree(initial, events)
  {
    LifecyclesAgreeIffNothingUnmasked(initial, events);
    assert events[..|events|] == events;
    hide LifecyclesAgree;
  }

  lemma {:induction false} ExtendLifecycle<E>(before: Ledger<E>, log: seq<Entry<E>>, e: Entry<E>)
    requires |before.board| == |log|
    ensures Extend(before, log, e).lifecycle ==
              if Position(log, e.id) == |log| && e.fact.Transition? && Next(before.lifecycle, e.fact.step).Some? then
                Next(before.lifecycle, e.fact.step).value
              else before.lifecycle
  {
  }

  lemma DroppedEventsKeepLifecycle(e: EventV3)
    requires ProjectEvent(e).None?
    ensures !FactV3(e).Transition?
  {
  }

  lemma ProjectedTransitions(e: EventV3, p: EventV2)
    requires ProjectEvent(e) == Some(p)
    ensures FactV3(e).Transition? <==> FactV2(p).Transition?
    ensures FactV3(e).Transition? ==> FactV3(e).step == FactV2(p).step
  {
  }

  /** With a repeated id a dropped event can unmask a later one, and the lifecycles part. */
  lemma RepeatedIdsCanSplitLifecycles(e: EventV3, f: EventV3)
    requires e.payload.AntennaSwitchStarted? && e.slotId == None
    requires f == e.(payload := PayloadV3.SessionStarted(None))
    ensures MeaningV3(Ready, [e, f]).lifecycle == Ready
    ensures MeaningV2(Ready, ProjectEvents([e, f])).lifecycle == Running
  {
    hide Replay, Extend, EntriesV2, EntriesV3, ProjectEvents;
    var p := ProjectEvent(f).value;
    assert [] + [e] == [e] && [e] + [f] == [e, f] && [] + [p] == [p];
    EmptyLogs();
    ProjectAppend([], e);
    ProjectAppend([e], f);
    EntriesAppendV2([], p);
    EntriesAppendV3([], e);
    EntriesAppendV3([e], f);
    ReplayAppend(Ready, [], EntryV2(p));
    ReplayAppend(Ready, [], EntryV3(e));
    ReplayAppend(Ready, [] + [EntryV3(e)], EntryV3(f));
    ExtendLifecycle(Replay(Ready, []), [], EntryV2(p));
    ExtendLifecycle(Replay(Ready, []), [], EntryV3(e));
    ExtendLifecycle(Replay(Ready, [] + [EntryV3(e)]), [] + [EntryV3(e)], EntryV3(f));
    assert ([] + [EntryV3(e)])[0].id == f.eventId;
  }

  lemma EmptyLogs()
    ensures EntriesV2([]) == [] && EntriesV3([]) == [] && ProjectEvents([]) == []
    ensures forall initial :: Replay<EffectiveV2>(initial, []).lifecycle == initial
    ensures forall initial :: Replay<EffectiveV3>(initial, []).lifecycle == initial
  {
  }
}
