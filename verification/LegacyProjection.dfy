/** Projecting a reduced schema-v2 log into the current analysis model. */
module LegacyProjection {
  import opened Prelude
  import opened Records
  import opened EventTypes
  import opened EventLog
  import opened EventShapes
  import opened OperatorEvents
  import EventMemory
  import SchemaUpgrade

  function ProjectLegacy(e: EffectiveV2): LegacyEvent {
    var meta := LegacyMeta(SCHEMA_V2, e.sessionId, e.occurredAt, Operator);
    match e.payload
    case AntennaStateConfirmed(antenna, note) =>
      LegacyEvent(meta, e.sourceEventId, e.slotId, LegacyEventType.Switched, note, Some(antenna))
    case SlotMissed(reason) =>
      LegacyEvent(meta, e.sourceEventId, e.slotId, LegacyEventType.MissedSlot, reason, None)
    case SlotBad(reason) =>
      LegacyEvent(meta, e.sourceEventId, e.slotId, LegacyEventType.BadSlot,
                  if reason == "" then None else Some(reason), None)
    case NoteAdded(note) =>
      LegacyEvent(meta, e.sourceEventId, e.slotId, LegacyEventType.NoteAdded,
                  if note == "" then None else Some(note), None)
  }

  function ProjectLegacyLifecycle(e: EventV2): Option<LegacyEvent> {
    var meta := LegacyMeta(SCHEMA_V2, e.meta.sessionId, e.occurredAt, e.meta.provenance.LegacySource());
    match e.payload
    case SessionStarted(note) =>
      Some(LegacyEvent(meta, e.eventId, e.slotId, LegacyEventType.SessionStarted, note, None))
    case SessionEnded(reason) =>
      Some(LegacyEvent(meta, e.eventId, e.slotId, LegacyEventType.SessionEnded, reason, None))
    case _ => None
  }

  predicate IsLifecycleRecord(e: LegacyEvent) {
    e.eventType == LegacyEventType.SessionStarted || e.eventType == LegacyEventType.SessionEnded
  }

  /** What each log position contributes to the current model. */
  function CurrentAt(e: EventV2, cell: Cell<EffectiveV2>): seq<LegacyEvent> {
    match ProjectLegacyLifecycle(e)
    case Some(lifecycle) => [lifecycle]
    case None => if cell.Holds? && cell.value.Some? then [ProjectLegacy(cell.value.value)] else []
  }

  function CurrentEvents(events: seq<EventV2>, board: seq<Cell<EffectiveV2>>): seq<LegacyEvent>
    requires |events| == |board|
  {
    if events == [] then []
    else
      var n := |events| - 1;
      CurrentEvents(events[..n], board[..n]) + CurrentAt(events[n], board[n])
  }

  predicate HasValue<E>(cell: Cell<E>) {
    cell.Holds? && cell.value.Some?
  }

  // ----- facts about replayed boards -----

  /** Evidence names its own position's event, which is the first with that id. */
  ghost predicate OwnIds(log: seq<Entry<EffectiveV2>>, board: seq<Cell<EffectiveV2>>) {
    && |board| == |log|
    && (forall t :: 0 <= t < |log| && board[t].Holds? ==> Position(log, log[t].id) == t && log[t].fact.Original?)
    && (forall t :: 0 <= t < |log| && HasValue(board[t]) ==> board[t].value.value.sourceEventId == log[t].id)
  }

  ghost predicate NamesItself(entry: Entry<EffectiveV2>) {
    match entry.fact
    case Original(v) => v.sourceEventId == entry.id
    case Correction(target, Some(v)) => v.sourceEventId == target
    case _ => true
  }

  lemma ExtendOwnIds(before: Ledger<EffectiveV2>, log: seq<Entry<EffectiveV2>>, e: Entry<EffectiveV2>)
    requires OwnIds(log, before.board) && NamesItself(e)
    ensures OwnIds(log + [e], Extend(before, log, e).board)
  {
    ExtendedBoard(before, log, e);
    hide Position, Next, Extend, OwnIds;
    assert |before.board| == |log|;
    var after := Extend(before, log, e).board;
    if after == before.board + [Blank] {
      OwnIdsAppend(log, before.board, e, Blank);
    } else if Position(log, e.id) == |log| && e.fact.Original? && after == before.board + [Holds(Some(e.fact.value))] {
      OwnIdsAppend(log, before.board, e, Holds(Some(e.fact.value)));
    } else {
      var t := Position(log, e.fact.target);
      assert OwnIds(log, before.board[t := Holds(e.fact.replacement)]);
      OwnIdsAppend(log, before.board[t := Holds(e.fact.replacement)], e, Blank);
    }
  }

  lemma {:induction false} OwnIdsAppend(log: seq<Entry<EffectiveV2>>, board: seq<Cell<EffectiveV2>>,
                                        e: Entry<EffectiveV2>, cell: Cell<EffectiveV2>)
    requires OwnIds(log, board)
    requires cell.Holds? ==> Position(log, e.id) == |log| && e.fact.Original?
    requires HasValue(cell) ==> cell.value.value.sourceEventId == e.id
    ensures OwnIds(log + [e], board + [cell])
  {
    hide Position;
    var longer := log + [e];
    assert forall j {:trigger longer[j]} :: 0 <= j < |log| ==> longer[j] == log[j];
    forall id
      ensures Position(log, id) < |log| ==> Position(longer, id) == Position(log, id)
      ensures Position(log, id) == |log| && e.id == id ==> Position(longer, id) == |log|
    {
      EventMemory.PositionAppend(log, e, id);
    }
  }

  lemma {:induction false} ReplayOwnIds(initial: Lifecycle, log: seq<Entry<EffectiveV2>>)
    requires forall i :: 0 <= i < |log| ==> NamesItself(log[i])
    ensures OwnIds(log, Replay(initial, log).board)
  {
    if log != [] {
      hide Extend, Position, NamesItself, OwnIds;
      var n := |log| - 1;
      ReplayOwnIds(initial, log[..n]);
      SplitLast(log);
      ExtendOwnIds(Replay(initial, log[..n]), log[..n], log[n]);
    } else {
      assert OwnIds(log, Replay(initial, log).board);
    }
  }

  lemma {:induction false} ViewMembers<E>(board: seq<Cell<E>>, v: E)
    ensures v in View(board) <==> exists t :: 0 <= t < |board| && board[t] == Holds(Some(v))
  {
    if board != [] {
      hide View;
      ViewMembers(board[1..], v);
      SchemaUpgrade.ViewCons(board);
      assert forall t :: 1 <= t < |board| ==> board[t] == board[1..][t - 1];
    }
  }

  // ----- the projection with a consumed map -----

  /** The map holds exactly the evidence at positions not yet reached, keyed by event id. */
  ghost predicate Pending(log: seq<Entry<EffectiveV2>>, board: seq<Cell<EffectiveV2>>, i: nat,
                          pending: map<string, LegacyEvent>)
  {
    && |board| == |log|
    && (forall id :: id in pending <==> i <= Position(log, id) < |log| && HasValue(board[Position(log, id)]))
    && (forall id :: id in pending ==> pending[id] == ProjectLegacy(board[Position(log, id)].value.value))
  }

  method CollectById(view: seq<EffectiveV2>) returns (byId: map<string, LegacyEvent>)
    ensures forall id :: id in byId ==> exists v :: v in view && v.sourceEventId == id && byId[id] == ProjectLegacy(v)
    ensures forall v :: v in view ==> v.sourceEventId in byId
  {
    byId := map[];
    for i := 0 to |view|
      invariant forall id :: id in byId ==>
                  exists v :: v in view && v.sourceEventId == id && byId[id] == ProjectLegacy(v)
      invariant forall k :: 0 <= k < i ==> view[k].sourceEventId in byId
    {
      byId := byId[view[i].sourceEventId := ProjectLegacy(view[i])];
    }
  }

  lemma CollectedIsPending(log: seq<Entry<EffectiveV2>>, board: seq<Cell<EffectiveV2>>, byId: map<string, LegacyEvent>)
    requires OwnIds(log, board)
    requires forall id :: id in byId ==>
               exists v :: v in View(board) && v.sourceEventId == id && byId[id] == ProjectLegacy(v)
    requires forall v :: v in View(board) ==> v.sourceEventId in byId
    ensures Pending(log, board, 0, byId)
  {
    hide View, ProjectLegacy;
    forall id | id in byId
      ensures Position(log, id) < |log| && HasValue(board[Position(log, id)])
      ensures byId[id] == ProjectLegacy(board[Position(log, id)].value.value)
    {
      var v :| v in View(board) && v.sourceEventId == id && byId[id] == ProjectLegacy(v);
      ViewMembers(board, v);
      var t :| 0 <= t < |board| && board[t] == Holds(Some(v));
      assert HasValue(board[t]);
    }
    forall id | Position(log, id) < |log| && HasValue(board[Position(log, id)])
      ensures id in byId
    {
      ViewMembers(board, board[Position(log, id)].value.value);
    }
  }

  method IntoCurrentEvents(events: seq<EventV2>) returns (current: seq<LegacyEvent>)
    ensures current == CurrentEvents(events, Replay(Ready, EntriesV2(events)).board)
  {
    ghost var log := EntriesV2(events);
    ghost var board := Replay(Ready, log).board;
    hide Replay, View, Position, ProjectLegacy, FactV2, EntriesV2, Pending, OwnIds, CurrentEvents;
    BoardOwnIds(events);
    var reduction := ReduceOperatorEventsV2(Ready, events);
    var effective := CollectById(reduction.effectiveEvents);
    CollectedIsPending(log, board, effective);
    current := [];
    EmptyCurrent();
    for i := 0 to |events|
      invariant Pending(log, board, i, effective)
      invariant current == CurrentEvents(events[..i], board[..i])
    {
      var event := events[i];
      PendingAt(events, log, board, i, effective);
      CurrentNext(events, board, i);
      match ProjectLegacyLifecycle(event) {
        case Some(lifecycle) => current := current + [lifecycle];
        case None =>
          if event.eventId in effective {
            current := current + [effective[event.eventId]];
            effective := effective - {event.eventId};
          }
      }
    }
    assert events[..|events|] == events && board[..|events|] == board;
  }

  lemma BoardOwnIds(events: seq<EventV2>)
    ensures |EntriesV2(events)| == |events|
    ensures OwnIds(EntriesV2(events), Replay(Ready, EntriesV2(events)).board)
  {
    hide Replay, OwnIds;
    EventsNameThemselves(events);
    ReplayOwnIds(Ready, EntriesV2(events));
  }

  lemma EventsNameThemselves(events: seq<EventV2>)
    ensures forall i :: 0 <= i < |events| ==> NamesItself(EntriesV2(events)[i])
  {
    forall i | 0 <= i < |events|
      ensures NamesItself(EntryV2(events[i]))
    {
      hide ShapeErrorV2;
    }
  }

  lemma EmptyCurrent()
    ensures CurrentEvents([], []) == []
  {
  }

  lemma CurrentNext(events: seq<EventV2>, board: seq<Cell<EffectiveV2>>, i: nat)
    requires i < |events| == |board|
    ensures CurrentEvents(events[..i + 1], board[..i + 1]) ==
              CurrentEvents(events[..i], board[..i]) + CurrentAt(events[i], board[i])
  {
    assert events[..i + 1][..i] == events[..i] && board[..i + 1][..i] == board[..i];
  }

  /** What the map answers for the event at position i, and how passing it changes the map. */
  lemma PendingAt(events: seq<EventV2>, log: seq<Entry<EffectiveV2>>, board: seq<Cell<EffectiveV2>>, i: nat,
                  pending: map<string, LegacyEvent>)
    requires log == EntriesV2(events) && i < |events| && OwnIds(log, board) && Pending(log, board, i, pending)
    ensures events[i].eventId in pending <==> HasValue(board[i])
    ensures HasValue(board[i]) ==> pending[events[i].eventId] == ProjectLegacy(board[i].value.value)
    ensures ProjectLegacyLifecycle(events[i]).Some? ==> !HasValue(board[i])
    ensures HasValue(board[i]) ==> Pending(log, board, i + 1, pending - {events[i].eventId})
    ensures !HasValue(board[i]) ==> Pending(log, board, i + 1, pending)
  {
    hide ProjectLegacy, ShapeErrorV2, Position;
    var id := log[i].id;
    assert id == events[i].eventId;
    assert Position(log, id) <= i;
    forall other | Position(log, other) == i
      ensures other == id
    {
    }
  }

  /** Legacy projections of an effective view. */
  function LegacyView(view: seq<EffectiveV2>): seq<LegacyEvent> {
    if view == [] then [] else [ProjectLegacy(view[0])] + LegacyView(view[1..])
  }

  function Evidence(current: seq<LegacyEvent>): seq<LegacyEvent> {
    if current == [] then []
    else (if IsLifecycleRecord(current[0]) then [] else [current[0]]) + Evidence(current[1..])
  }

  lemma {:induction false} EvidenceConcat(a: seq<LegacyEvent>, b: seq<LegacyEvent>)
    ensures Evidence(a + b) == Evidence(a) + Evidence(b)
  {
    if a == [] {
      assert a + b == b;
    } else {
      var head := if IsLifecycleRecord(a[0]) then [] else [a[0]];
      assert (a + b)[0] == a[0] && (a + b)[1..] == a[1..] + b;
      EvidenceConcat(a[1..], b);
      assert Evidence(a + b) == head + (Evidence(a[1..]) + Evidence(b));
      assert Evidence(a) == head + Evidence(a[1..]);
    }
  }

  lemma {:induction false} LegacyViewConcat(a: seq<EffectiveV2>, b: seq<EffectiveV2>)
    ensures LegacyView(a + b) == LegacyView(a) + LegacyView(b)
  {
    if a == [] {
      assert a + b == b;
    } else {
      assert (a + b)[0] == a[0] && (a + b)[1..] == a[1..] + b;
      LegacyViewConcat(a[1..], b);
    }
  }

  lemma ViewSnoc(board: seq<Cell<EffectiveV2>>, cell: Cell<EffectiveV2>)
    ensures View(board + [cell]) == View(board) + (if HasValue(cell) then [cell.value.value] else [])
  {
    HeldConcat(board, [cell]);
    ValuesConcat(Held(board), Held([cell]));
  }

  lemma {:induction false} EvidenceOfCurrent(events: seq<EventV2>, board: seq<Cell<EffectiveV2>>)
    requires |events| == |board|
    requires forall i :: 0 <= i < |events| && ProjectLegacyLifecycle(events[i]).Some? ==> !HasValue(board[i])
    ensures Evidence(CurrentEvents(events, board)) == LegacyView(View(board))
  {
    if events != [] {
      hide View, ProjectLegacy;
      var n := |events| - 1;
      EvidenceOfCurrent(events[..n], board[..n]);
      EvidenceConcat(CurrentEvents(events[..n], board[..n]), CurrentAt(events[n], board[n]));
      SplitLast(board);
      ViewSnoc(board[..n], board[n]);
      LegacyViewConcat(View(board[..n]), if HasValue(board[n]) then [board[n].value.value] else []);
      EvidenceOfPosition(events[n], board[n]);
    }
  }

  lemma EvidenceOfPosition(e: EventV2, cell: Cell<EffectiveV2>)
    requires ProjectLegacyLifecycle(e).Some? ==> !HasValue(cell)
    ensures Evidence(CurrentAt(e, cell)) == LegacyView(if HasValue(cell) then [cell.value.value] else [])
  {
  }

  /**
   The consumed map loses and repeats nothing: in every log, duplicated ids included, the
   evidence of the current model is the legacy projection of the effective view, in order.
   */
  lemma {:induction false} CurrentEvidenceIsEffectiveView(events: seq<EventV2>)
    ensures Evidence(CurrentEvents(events, Replay(Ready, EntriesV2(events)).board))
            == LegacyView(MeaningV2(Ready, events).effectiveEvents)
  {
    hide Replay, View, CurrentEvents, Position, FactV2;
    var board := Replay(Ready, EntriesV2(events)).board;
    BoardOwnIds(events);
    forall i | 0 <= i < |events| && ProjectLegacyLifecycle(events[i]).Some?
      ensures !HasValue(board[i])
    {
      LifecycleIsNotOriginal(events[i]);
    }
    EvidenceOfCurrent(events, board);
  }

  lemma LifecycleIsNotOriginal(e: EventV2)
    ensures ProjectLegacyLifecycle(e).Some? ==> !FactV2(e).Original?
  {
  }

  /** Every antenna switch in the current model carries the label an operator confirmed. */
  lemma {:induction false} SwitchesAreLabelled(view: seq<EffectiveV2>)
    ensures forall e :: e in LegacyView(view) && e.eventType == LegacyEventType.Switched ==> e.actualAntennaLabel.Some?
  {
    if view != [] {
      SwitchesAreLabelled(view[1..]);
    }
  }

  /** The kind of record that stands for each payload. */
  ghost predicate StandsFor(record: LegacyEvent, v: EffectiveV2) {
    && (record.eventType == LegacyEventType.Switched <==> v.payload.AntennaStateConfirmed?)
    && (record.eventType == LegacyEventType.MissedSlot <==> v.payload.SlotMissed?)
    && (record.eventType == LegacyEventType.BadSlot <==> v.payload.SlotBad?)
    && (record.eventType == LegacyEventType.NoteAdded <==> v.payload.NoteAdded?)
    && record.eventId == v.sourceEventId && record.slotId == v.slotId
    && record.meta == LegacyMeta(SCHEMA_V2, v.sessionId, v.occurredAt, Operator)
    && record.actualAntennaLabel == (if v.payload.AntennaStateConfirmed? then Some(v.payload.antennaLabel) else None)
    && record.note == match v.payload
                      case AntennaStateConfirmed(_, note) => note
                      case SlotMissed(reason) => reason
                      case SlotBad(reason) => if reason == "" then None else Some(reason)
                      case NoteAdded(text) => if text == "" then None else Some(text)
  }

  /** Record by record, the projection of an effective view says what the view says. */
  lemma {:induction false} RecordsStandForEvidence(view: seq<EffectiveV2>, i: nat)
    requires i < |view|
    ensures |LegacyView(view)| == |view| && StandsFor(LegacyView(view)[i], view[i])
  {
    hide ProjectLegacy, StandsFor;
    assert StandsFor(ProjectLegacy(view[0]), view[0]) by { ProjectedStandsFor(view[0]); }
    LegacyLength(view[1..]);
    if i > 0 {
      RecordsStandForEvidence(view[1..], i - 1);
    }
  }

  lemma ProjectedStandsFor(v: EffectiveV2)
    ensures StandsFor(ProjectLegacy(v), v)
  {
  }

  lemma {:induction false} LegacyLength(view: seq<EffectiveV2>)
    ensures |LegacyView(view)| == |view|
  {
    if view != [] {
      LegacyLength(view[1..]);
    }
  }

  /** A started or ended session leaves exactly the record of that, and other lifecycle events leave none. */
  lemma LifecycleRecords(e: EventV2, cell: Cell<EffectiveV2>)
    ensures e.payload.SessionStarted? || e.payload.SessionEnded? ==>
              && |CurrentAt(e, cell)| == 1
              && var record := CurrentAt(e, cell)[0];
              && record.eventType == (if e.payload.SessionStarted? then LegacyEventType.SessionStarted
                                      else LegacyEventType.SessionEnded)
              && record.eventId == e.eventId && record.slotId == e.slotId && record.actualAntennaLabel.None?
              && record.meta == LegacyMeta(SCHEMA_V2, e.meta.sessionId, e.occurredAt,
                                           e.meta.provenance.LegacySource())
              && record.note == match e.payload case SessionStarted(note) => note case SessionEnded(reason) => reason
    ensures !e.payload.SessionStarted? && !e.payload.SessionEnded? && !HasValue(cell) ==> CurrentAt(e, cell) == []
  {
  }

  /** The source of a legacy record, by who provided the evidence and how it was acquired. */
  lemma SourcesByProvider(p: Provenance)
    ensures p.LegacySource() == WsjtxUdp <==> p.providerId == "wsjt-x" && p.acquisitionChannel == "udp"
    ensures p.LegacySource() == WsjtxLog <==> p.providerId == "wsjt-x" && p.acquisitionChannel == "log-import"
    ensures p.LegacySource() == Wsprnet <==> p.providerId == "wsprnet"
    ensures p.LegacySource() == WsprLive <==> p.providerId == "wspr-live"
    ensures p.LegacySource() == RigAdapter <==> p.providerId == "local-rig"
    ensures p.LegacySource() == NoaaSwpc <==> p.providerId == "noaa-swpc"
    ensures p.LegacySource() == Operator <==> p.providerId == "antennabench" && p.sourceId == "operator-evidence"
    ensures p.LegacySource() == Derived <==> p.providerId == "antennabench" && p.sourceId == "derived"
  {
  }
}
