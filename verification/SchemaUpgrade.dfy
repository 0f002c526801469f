/** Upgrading schema-v2 events to schema v3, and what the upgrade preserves. */
module SchemaUpgrade {
  import opened Prelude
  import opened Records
  import opened EventTypes
  import opened EventLog
  import opened EventShapes
  import opened OperatorEvents

  function UpgradeCorrectable(c: CorrectableV2): CorrectableV3 {
    match c
    case AntennaStateConfirmed(antenna, note) => CorrectableV3.AntennaStateConfirmed(antenna, note)
    case SlotMissed(reason) => CorrectableV3.SlotMissed(reason)
    case SlotBad(reason) => CorrectableV3.SlotBad(reason)
    case NoteAdded(note) => CorrectableV3.NoteAdded(note)
  }

  function UpgradeCorrection(c: CorrectionV2): CorrectionV3 {
    match c
    case Retract => CorrectionV3.Retract
    case Replace(r) => CorrectionV3.Replace(
      ReplacementV3(r.occurredAt, r.timeBasis, r.uncertaintySeconds, r.slotId, UpgradeCorrectable(r.payload)))
  }

  function UpgradePayload(p: PayloadV2): PayloadV3 {
    match p
    case SessionStarted(note) => PayloadV3.SessionStarted(note)
    case SessionInterrupted(reason) => PayloadV3.SessionInterrupted(reason)
    case InterruptionDetected(reason) => PayloadV3.InterruptionDetected(reason)
    case SessionResumed(note) => PayloadV3.SessionResumed(note)
    case SessionEnded(reason) => PayloadV3.SessionEnded(reason)
    case SessionAbandoned(reason) => PayloadV3.SessionAbandoned(reason)
    case AntennaStateConfirmed(antenna, note) => PayloadV3.AntennaStateConfirmed(antenna, note)
    case SlotMissed(reason) => PayloadV3.SlotMissed(reason)
    case SlotBad(reason) => PayloadV3.SlotBad(reason)
    case NoteAdded(note) => PayloadV3.NoteAdded(note)
    case EventCorrected(target, correction, reason) =>
      PayloadV3.EventCorrected(target, UpgradeCorrection(correction), reason)
  }

  function UpgradeEvent(e: EventV2): EventV3 {
    EventV3(e.meta.(schemaVersion := SCHEMA_V3), e.eventId, e.occurredAt, e.timeBasis,
            e.uncertaintySeconds, e.slotId, UpgradePayload(e.payload))
  }

  function UpgradeEvents(events: seq<EventV2>): (upgraded: seq<EventV3>)
    ensures |upgraded| == |events|
    ensures forall i :: 0 <= i < |events| ==> upgraded[i] == UpgradeEvent(events[i])
  {
    seq(|events|, i requires 0 <= i < |events| => UpgradeEvent(events[i]))
  }

  function UpgradeEffective(e: EffectiveV2): EffectiveV3 {
    EffectiveV3(e.sessionId, e.sourceEventId, e.effectiveThroughEventId, e.recordedAt, e.occurredAt,
                e.timeBasis, e.uncertaintySeconds, e.slotId, UpgradeCorrectable(e.payload))
  }

  function UpgradeView(view: seq<EffectiveV2>): (upgraded: seq<EffectiveV3>)
    ensures |upgraded| == |view|
    ensures forall i :: 0 <= i < |view| ==> upgraded[i] == UpgradeEffective(view[i])
  {
    seq(|view|, i requires 0 <= i < |view| => UpgradeEffective(view[i]))
  }

  // ----- the upgrade seen through the ledger -----

  function UpgradeValue(v: Option<EffectiveV2>): Option<EffectiveV3> {
    match v case None => None case Some(e) => Some(UpgradeEffective(e))
  }

  function UpgradeFact(f: Fact<EffectiveV2>): Fact<EffectiveV3> {
    match f
    case Malformed(m) => Malformed(m)
    case Transition(s) => Transition(s)
    case Operational => Operational
    case Correction(target, r) => Correction(target, UpgradeValue(r))
    case Original(v) => Original(UpgradeEffective(v))
  }

  function UpgradeCell(c: Cell<EffectiveV2>): Cell<EffectiveV3> {
    match c case Blank => Blank case Holds(v) => Holds(UpgradeValue(v))
  }

  /** Ledgers that differ only by upgraded evidence. */
  ghost predicate UpgradedLedger(old_: Ledger<EffectiveV2>, new_: Ledger<EffectiveV3>) {
    && new_.lifecycle == old_.lifecycle
    && new_.diagnostics == old_.diagnostics
    && |new_.board| == |old_.board|
    && forall i :: 0 <= i < |old_.board| ==> new_.board[i] == UpgradeCell(old_.board[i])
  }

  lemma UpgradeKeepsShape(e: EventV2)
    ensures ShapeErrorV3(UpgradeEvent(e)) == ShapeErrorV2(e)
  {
  }

  lemma UpgradeKeepsFact(e: EventV2)
    ensures FactV3(UpgradeEvent(e)) == UpgradeFact(FactV2(e))
  {
    UpgradeKeepsShape(e);
    hide ShapeErrorV2, ShapeErrorV3;
  }

  lemma {:induction false} SamePosition<E, F>(log: seq<Entry<E>>, other: seq<Entry<F>>, id: string)
    requires |log| == |other| && forall i :: 0 <= i < |log| ==> log[i].id == other[i].id
    ensures Position(log, id) == Position(other, id)
  {
    var p, q := Position(log, id), Position(other, id);
    assert p < |log| ==> other[p].id == id;
    assert q < |other| ==> log[q].id == id;
  }

  lemma ExtendUpgraded(l2: Ledger<EffectiveV2>, log2: seq<Entry<EffectiveV2>>, e2: Entry<EffectiveV2>,
                       l3: Ledger<EffectiveV3>, log3: seq<Entry<EffectiveV3>>, e3: Entry<EffectiveV3>)
    requires |l2.board| == |log2| && |l3.board| == |log3| && UpgradedLedger(l2, l3)
    requires |log2| == |log3| && forall i :: 0 <= i < |log2| ==> log2[i].id == log3[i].id
    requires e3 == Entry(e2.id, UpgradeFact(e2.fact))
    ensures UpgradedLedger(Extend(l2, log2, e2), Extend(l3, log3, e3))
  {
    hide Position, UpgradeEffective, Next;
    SamePosition(log2, log3, e2.id);
    if e2.fact.Correction? {
      SamePosition(log2, log3, e2.fact.target);
    }
  }

  lemma {:induction false} ReplayUpgraded(initial: Lifecycle, events: seq<EventV2>)
    ensures UpgradedLedger(Replay(initial, EntriesV2(events)), Replay(initial, EntriesV3(UpgradeEvents(events))))
  {
    if events != [] {
      hide Replay, Extend, EntriesV2, EntriesV3, FactV2, FactV3, UpgradeFact, UpgradeEvent, UpgradeEvents,
           UpgradedLedger;
      var n := |events| - 1;
      var old_, new_ := EntriesV2(events[..n]), EntriesV3(UpgradeEvents(events[..n]));
      ReplayUpgraded(initial, events[..n]);
      SplitLast(events);
      assert UpgradeEvents(events[..n] + [events[n]]) == UpgradeEvents(events[..n]) + [UpgradeEvent(events[n])];
      EntriesAppendV2(events[..n], events[n]);
      EntriesAppendV3(UpgradeEvents(events[..n]), UpgradeEvent(events[n]));
      UpgradeKeepsFact(events[n]);
      UpgradedLengths(events[..n]);
      ReplayAppend(initial, old_, EntryV2(events[n]));
      ReplayAppend(initial, new_, EntryV3(UpgradeEvent(events[n])));
      ExtendUpgraded(Replay(initial, old_), old_, EntryV2(events[n]),
                     Replay(initial, new_), new_, EntryV3(UpgradeEvent(events[n])));
    }
  }

  lemma UpgradedLengths(events: seq<EventV2>)
    ensures |EntriesV2(events)| == |EntriesV3(UpgradeEvents(events))| == |events|
    ensures forall i :: 0 <= i < |events| ==> EntriesV2(events)[i].id == EntriesV3(UpgradeEvents(events))[i].id
  {
  }

  lemma {:induction false} ViewUpgraded(old_: seq<Cell<EffectiveV2>>, new_: seq<Cell<EffectiveV3>>)
    requires |old_| == |new_| && forall i :: 0 <= i < |old_| ==> new_[i] == UpgradeCell(old_[i])
    ensures View(new_) == UpgradeView(View(old_))
  {
    if old_ != [] {
      ViewCons(old_);
      ViewCons(new_);
      hide View, UpgradeEffective, UpgradeView;
      ViewUpgraded(old_[1..], new_[1..]);
      var was := if old_[0].Holds? && old_[0].value.Some? then [old_[0].value.value] else [];
      UpgradeViewConcat(was, View(old_[1..]));
      OneUpgraded(was);
    }
  }

  lemma UpgradeViewConcat(a: seq<EffectiveV2>, b: seq<EffectiveV2>)
    ensures UpgradeView(a + b) == UpgradeView(a) + UpgradeView(b)
  {
  }

  lemma OneUpgraded(view: seq<EffectiveV2>)
    requires |view| <= 1
    ensures UpgradeView(view) == if view == [] then [] else [UpgradeEffective(view[0])]
  {
  }

  lemma ViewCons<E>(board: seq<Cell<E>>)
    requires board != []
    ensures View(board) ==
              (if board[0].Holds? && board[0].value.Some? then [board[0].value.value] else []) + View(board[1..])
  {
    ValuesConcat(if board[0].Holds? then [board[0].value] else [], Held(board[1..]));
  }

  /**
   Upgrading a log changes nothing it means: the same lifecycle, the same diagnostics in the
   same order, and exactly the upgraded effective events.
   */
  lemma UpgradePreservesMeaning(initial: Lifecycle, events: seq<EventV2>)
    ensures var was, now := MeaningV2(initial, events), MeaningV3(initial, UpgradeEvents(events));
            && now.lifecycle == was.lifecycle
            && now.diagnostics == was.diagnostics
            && now.effectiveEvents == UpgradeView(was.effectiveEvents)
  {
    hide Replay, View;
    ReplayUpgraded(initial, events);
    ViewUpgraded(Replay(initial, EntriesV2(events)).board, Replay(initial, EntriesV3(UpgradeEvents(events))).board);
  }
}
