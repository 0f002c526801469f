/**
 What one more event does to a log, in terms of the event's own fields: which events are refused and with which
 message, and what an event that is not refused changes.
 */
module EventRules {
  import opened Prelude
  import opened Records
  import opened Trimming
  import opened EventTypes
  import opened EventLog
  import opened EventShapes
  import opened EventLogProperties
  import opened OperatorEvents
  import EventMemory
  import SchemaUpgrade

  // ----- what the fields must satisfy -----

  /** A condition on an event with the message for its failure. */
  datatype Demand = Demand(holds: bool, message: Message)

  /** The message of the first demand that does not hold. */
  ghost function FaultOf(demands: seq<Demand>): (fault: Option<Message>)
    ensures fault.None? <==> forall i :: 0 <= i < |demands| ==> demands[i].holds
  {
    if demands == [] then None
    else if !demands[0].holds then Some(demands[0].message)
    else FaultOf(demands[1..])
  }

  predicate ProperLabel(antenna: string) {
    antenna != "" && CleanEnds(antenna)
  }

  const TWO_MINUTES: int := 120 * SECOND

  ghost function ReplacementDemandsV2(r: ReplacementV2): seq<Demand> {
    match r.payload
    case AntennaStateConfirmed(antenna, _) =>
      [Demand(r.slotId.Some?, ReplacementSlotRequired(ConfirmationKind)),
       Demand(ProperLabel(antenna), ReplacementLabelNotTrimmed)]
    case SlotMissed(_) => [Demand(r.slotId.Some?, ReplacementSlotRequired(MissedKind))]
    case SlotBad(reason) =>
      [Demand(r.slotId.Some?, ReplacementSlotRequired(BadKind)), Demand(HasText(reason), ReplacementTextEmpty(BadKind))]
    case NoteAdded(note) => [Demand(HasText(note), ReplacementTextEmpty(NoteKind))]
  }

  ghost function DemandsV2(e: EventV2): seq<Demand> {
    match e.payload
    case AntennaStateConfirmed(antenna, _) =>
      [Demand(e.slotId.Some?, SlotRequired(ConfirmationKind)),
       Demand(ProperLabel(antenna), LabelNotTrimmed(ConfirmationKind))]
    case SlotMissed(_) => [Demand(e.slotId.Some?, SlotRequired(MissedKind))]
    case SlotBad(reason) =>
      [Demand(e.slotId.Some?, SlotRequired(BadKind)), Demand(HasText(reason), TextEmpty(BadKind))]
    case NoteAdded(note) => [Demand(HasText(note), TextEmpty(NoteKind))]
    case EventCorrected(target, correction, why) =>
      [Demand(e.slotId.None?, CorrectionNamesSlot), Demand(HasText(target), CorrectionTargetEmpty),
       Demand(HasText(why), CorrectionReasonEmpty)]
      + (if correction.Replace? then ReplacementDemandsV2(correction.replacement) else [])
    case _ => [Demand(e.slotId.None?, LifecycleNamesSlot)]
  }

  ghost function ReplacementDemandsV3(r: ReplacementV3): seq<Demand> {
    match r.payload
    case AntennaStateConfirmed(antenna, _) =>
      [Demand(r.slotId.Some?, ReplacementSlotRequired(ConfirmationKind)),
       Demand(ProperLabel(antenna), ReplacementLabelNotTrimmed)]
    case SignalStateConfirmed(_) => [Demand(r.slotId.Some?, ReplacementSlotRequired(SignalKind))]
    case SlotMissed(_) => [Demand(r.slotId.Some?, ReplacementSlotRequired(MissedKind))]
    case SlotBad(reason) =>
      [Demand(r.slotId.Some?, ReplacementSlotRequired(BadKind)), Demand(HasText(reason), ReplacementTextEmpty(BadKind))]
    case NoteAdded(note) => [Demand(HasText(note), ReplacementTextEmpty(NoteKind))]
  }

  ghost function DemandsV3(e: EventV3): seq<Demand> {
    match e.payload
    case AntennaSwitchStarted(_) => [Demand(e.slotId.None?, SwitchNamesSlot)]
    case WsprCycleArmed(antenna, startsAt, _) =>
      [Demand(e.slotId.Some?, SlotRequired(ArmedKind)), Demand(ProperLabel(antenna), LabelNotTrimmed(ArmedKind)),
       Demand(startsAt % TWO_MINUTES == SECOND, CycleStartMisaligned),
       Demand(startsAt >= e.occurredAt, CycleStartsEarly)]
    case AntennaStateConfirmed(antenna, _) =>
      [Demand(e.slotId.Some?, SlotRequired(ConfirmationKind)),
       Demand(ProperLabel(antenna), LabelNotTrimmed(ConfirmationKind))]
    case SignalStateConfirmed(_) => [Demand(e.slotId.Some?, SlotRequired(SignalKind))]
    case SlotMissed(_) => [Demand(e.slotId.Some?, SlotRequired(MissedKind))]
    case SlotBad(reason) =>
      [Demand(e.slotId.Some?, SlotRequired(BadKind)), Demand(HasText(reason), TextEmpty(BadKind))]
    case NoteAdded(note) => [Demand(HasText(note), TextEmpty(NoteKind))]
    case EventCorrected(target, correction, why) =>
      [Demand(e.slotId.None?, CorrectionNamesSlot), Demand(HasText(target), CorrectionTargetEmpty),
       Demand(HasText(why), CorrectionReasonEmpty)]
      + (if correction.Replace? then ReplacementDemandsV3(correction.replacement) else [])
    case _ => [Demand(e.slotId.None?, LifecycleNamesSlot)]
  }

  lemma LabelsByCharacters(antenna: string)
    ensures BadLabel(antenna) <==> !ProperLabel(antenna)
  {
    TrimmedIffClean(antenna);
    hide Trim, IsWhitespace;
    if Trim(antenna) == "" && antenna != "" {
      assert Trim(antenna) != antenna;
    }
  }

  /** A cycle starts one second into an even minute. */
  lemma CycleStartsByTheClock(at: Instant)
    ensures IsWsprCycleStart(at) <==> at % TWO_MINUTES == SECOND
  {
    var seconds := at / SECOND;
    assert at == SECOND * seconds + at % SECOND;
    var minutes := seconds / 120;
    assert seconds == 120 * minutes + seconds % 120;
    assert at == TWO_MINUTES * minutes + (SECOND * (seconds % 120) + at % SECOND);
    Remainder(at, minutes, SECOND * (seconds % 120) + at % SECOND);
  }

  lemma Remainder(at: int, q: int, r: int)
    requires at == TWO_MINUTES * q + r && 0 <= r < TWO_MINUTES
    ensures at % TWO_MINUTES == r
  {
  }

  lemma {:induction false} FaultOfConcat(a: seq<Demand>, b: seq<Demand>)
    ensures FaultOf(a + b) == OrElse(FaultOf(a), FaultOf(b))
  {
    if a == [] {
      assert a + b == b;
    } else {
      assert (a + b)[1..] == a[1..] + b;
      FaultOfConcat(a[1..], b);
    }
  }

  lemma FaultOfOne(a: Demand)
    ensures FaultOf([a]) == Check(!a.holds, a.message)
  {
  }

  lemma FaultOfTwo(a: Demand, b: Demand)
    ensures FaultOf([a, b]) == OrElse(Check(!a.holds, a.message), Check(!b.holds, b.message))
  {
    FaultOfConcat([a], [b]);
    FaultOfOne(a);
    FaultOfOne(b);
    assert [a] + [b] == [a, b];
  }

  lemma ReplacementFaultV2(r: ReplacementV2)
    ensures ReplacementShapeErrorV2(r) == FaultOf(ReplacementDemandsV2(r))
  {
    var demands := ReplacementDemandsV2(r);
    FaultOfOne(demands[0]);
    FaultOfTwo(demands[0], demands[if |demands| > 1 then 1 else 0]);
    match r.payload {
      case AntennaStateConfirmed(antenna, _) => LabelsByCharacters(antenna);
      case SlotBad(reason) => BlankIffNoText(reason);
      case NoteAdded(note) => BlankIffNoText(note);
      case _ =>
    }
    hide BadLabel, ProperLabel, IsBlank, HasText, FaultOf;
  }

  lemma ReplacementFaultV3(r: ReplacementV3)
    ensures ReplacementShapeErrorV3(r) == FaultOf(ReplacementDemandsV3(r))
  {
    var demands := ReplacementDemandsV3(r);
    FaultOfOne(demands[0]);
    FaultOfTwo(demands[0], demands[if |demands| > 1 then 1 else 0]);
    match r.payload {
      case AntennaStateConfirmed(antenna, _) => LabelsByCharacters(antenna);
      case SlotBad(reason) => BlankIffNoText(reason);
      case NoteAdded(note) => BlankIffNoText(note);
      case _ =>
    }
    hide BadLabel, ProperLabel, IsBlank, HasText, FaultOf;
  }

  lemma {:induction false} CorrectionFault(named: Demand, target: Demand, why: Demand, more: seq<Demand>)
    ensures FaultOf([named, target, why] + more)
            == if !named.holds then Some(named.message)
               else if !target.holds then Some(target.message)
               else if !why.holds then Some(why.message)
               else FaultOf(more)
  {
    FaultOfConcat([named, target, why], more);
    FaultOfConcat([named, target], [why]);
    FaultOfTwo(named, target);
    FaultOfOne(why);
    assert [named, target] + [why] == [named, target, why];
  }

  /** An event is refused for its shape exactly for the first demand that its fields do not meet. */
  lemma ShapeFaultV2(e: EventV2)
    ensures ShapeErrorV2(e) == FaultOf(DemandsV2(e))
  {
    var demands := DemandsV2(e);
    FaultOfOne(demands[0]);
    FaultOfTwo(demands[0], demands[if |demands| > 1 then 1 else 0]);
    match e.payload {
      case AntennaStateConfirmed(antenna, _) => LabelsByCharacters(antenna);
      case SlotBad(reason) => BlankIffNoText(reason);
      case NoteAdded(note) => BlankIffNoText(note);
      case EventCorrected(target, correction, why) =>
        BlankIffNoText(target);
        BlankIffNoText(why);
        var more := if correction.Replace? then ReplacementDemandsV2(correction.replacement) else [];
        CorrectionFault(demands[0], demands[1], demands[2], more);
        assert demands == [demands[0], demands[1], demands[2]] + more;
        if correction.Replace? {
          ReplacementFaultV2(correction.replacement);
        }
      case _ =>
    }
    hide BadLabel, ProperLabel, IsBlank, HasText, FaultOf, ReplacementShapeErrorV2, ReplacementDemandsV2;
  }

  lemma ShapeFaultV3(e: EventV3)
    ensures ShapeErrorV3(e) == FaultOf(DemandsV3(e))
  {
    var demands := DemandsV3(e);
    FaultOfOne(demands[0]);
    FaultOfTwo(demands[0], demands[if |demands| > 1 then 1 else 0]);
    match e.payload {
      case AntennaStateConfirmed(antenna, _) => LabelsByCharacters(antenna);
      case WsprCycleArmed(antenna, startsAt, _) =>
        LabelsByCharacters(antenna);
        CycleStartsByTheClock(startsAt);
        CorrectionFault(demands[0], demands[1], demands[2], [demands[3]]);
        FaultOfOne(demands[3]);
        assert demands == [demands[0], demands[1], demands[2]] + [demands[3]];
      case SlotBad(reason) => BlankIffNoText(reason);
      case NoteAdded(note) => BlankIffNoText(note);
      case EventCorrected(target, correction, why) =>
        BlankIffNoText(target);
        BlankIffNoText(why);
        var more := if correction.Replace? then ReplacementDemandsV3(correction.replacement) else [];
        CorrectionFault(demands[0], demands[1], demands[2], more);
        assert demands == [demands[0], demands[1], demands[2]] + more;
        if correction.Replace? {
          ReplacementFaultV3(correction.replacement);
        }
      case _ =>
    }
    hide BadLabel, ProperLabel, IsBlank, HasText, FaultOf, ReplacementShapeErrorV3, ReplacementDemandsV3,
         IsWsprCycleStart;
  }

  // ----- what one more entry does to a ledger -----

  /** What a held value at a position contributes to the view, with what stands before and after it. */
  lemma ViewAround<E>(board: seq<Cell<E>>, p: nat, value: Option<E>)
    requires p < |board| && board[p].Holds?
    ensures View(board) == View(board[..p]) + Values([board[p].value]) + View(board[p + 1..])
    ensures View(board[p := Holds(value)]) == View(board[..p]) + Values([value]) + View(board[p + 1..])
  {
    var pre, post := board[..p], board[p + 1..];
    assert board == pre + [board[p]] + post;
    assert board[p := Holds(value)] == pre + [Holds(value)] + post;
    ViewConcat(pre + [board[p]], post);
    ViewConcat(pre, [board[p]]);
    ViewConcat(pre + [Holds(value)], post);
    ViewConcat(pre, [Holds(value)]);
    OneHeld(board[p].value);
    OneHeld(value);
  }

  lemma ViewConcat<E>(a: seq<Cell<E>>, b: seq<Cell<E>>)
    ensures View(a + b) == View(a) + View(b)
  {
    HeldConcat(a, b);
    ValuesConcat(Held(a), Held(b));
  }

  lemma ViewGrows<E>(board: seq<Cell<E>>, value: E)
    ensures View(board + [Holds(Some(value))]) == View(board) + [value]
  {
    ViewConcat(board, [Holds(Some(value))]);
    OneHeld(Some(value));
    OneOrNone(Some(value));
  }

  lemma OneHeld<E>(value: Option<E>)
    ensures Held([Holds(value)]) == [value]
  {
    assert [Holds(value)][1..] == [];
  }

  /** A log admits corrections of this id: an earlier event with it is evidence that was accepted. */
  ghost predicate Admitted<E>(initial: Lifecycle, log: seq<Entry<E>>, target: string) {
    exists t :: 0 <= t < |log| && log[t].id == target && AcceptedOriginal(initial, log, t)
  }

  lemma {:induction false} AdmittedIffHeld<E>(initial: Lifecycle, log: seq<Entry<E>>, target: string)
    ensures var p := Position(log, target);
            Admitted(initial, log, target) <==> p < |log| && Replay(initial, log).board[p].Holds?
  {
    hide Replay, LifecycleAfter;
    var p := Position(log, target);
    if p < |log| {
      LastCorrectionWins(initial, log, p);
    }
    forall t | 0 <= t < |log| && log[t].id == target && AcceptedOriginal(initial, log, t)
      ensures t == p
    {
    }
  }

  /** Nothing changes but for one diagnostic. */
  ghost predicate Refuses<E>(before: Ledger<E>, after: Ledger<E>, d: Diagnostic) {
    && after.lifecycle == before.lifecycle && View(after.board) == View(before.board)
    && after.diagnostics == before.diagnostics + [d]
  }

  ghost predicate Becomes<E>(before: Ledger<E>, after: Ledger<E>, lifecycle: Lifecycle, view: seq<E>) {
    && after.lifecycle == lifecycle && View(after.board) == view && after.diagnostics == before.diagnostics
  }

  /** At most one value is taken out of the view, and the new ones stand in its place. */
  ghost predicate Exchanges<E>(before: seq<E>, after: seq<E>, now: seq<E>) {
    exists i, j :: 0 <= i <= j <= |before| && j <= i + 1 && after == before[..i] + now + before[j..]
  }

  lemma MiddleExchanged<E>(pre: seq<E>, was: seq<E>, post: seq<E>, now: seq<E>)
    requires |was| <= 1
    ensures Exchanges(pre + was + post, pre + now + post, now)
  {
    var all, i, j := pre + was + post, |pre|, |pre| + |was|;
    assert all[..i] == pre && all[j..] == post;
  }

  lemma {:induction false} CorrectionExchanges<E>(initial: Lifecycle, log: seq<Entry<E>>, entry: Entry<E>)
    requires Position(log, entry.id) == |log| && entry.fact.Correction?
    requires !IsTerminal(Replay(initial, log).lifecycle) && Admitted(initial, log, entry.fact.target)
    ensures var before, after := Replay(initial, log), Replay(initial, log + [entry]);
            && after.lifecycle == before.lifecycle && after.diagnostics == before.diagnostics
            && Exchanges(View(before.board), View(after.board), Values([entry.fact.replacement]))
  {
    var before := Replay(initial, log);
    AdmittedIffHeld(initial, log, entry.fact.target);
    CorrectedLedger(initial, log, entry);
    hide Replay, View, Values, Admitted, Exchanges, Position;
    var t, value := Position(log, entry.fact.target), entry.fact.replacement;
    ViewAround(before.board, t, value);
    ViewBlank(before.board[t := Holds(value)]);
    OneOrNone(before.board[t].value);
    MiddleExchanged(View(before.board[..t]), Values([before.board[t].value]), View(before.board[t + 1..]),
                    Values([value]));
  }

  lemma {:induction false} CorrectedLedger<E>(initial: Lifecycle, log: seq<Entry<E>>, entry: Entry<E>)
    requires Position(log, entry.id) == |log| && entry.fact.Correction?
    requires var t, before := Position(log, entry.fact.target), Replay(initial, log);
             !IsTerminal(before.lifecycle) && t < |log| && before.board[t].Holds?
    ensures var before := Replay(initial, log);
            Replay(initial, log + [entry]) == before.(
              board := before.board[Position(log, entry.fact.target) := Holds(entry.fact.replacement)] + [Blank])
  {
    ReplayAppend(initial, log, entry);
    hide Replay, Position;
  }

  lemma OneOrNone<E>(value: Option<E>)
    ensures |Values([value])| <= 1
    ensures Values([value]) == if value.Some? then [value.value] else []
  {
  }

  /** What an entry that is not a correction does, seen from outside. */
  lemma {:induction false} PlainEntry<E>(initial: Lifecycle, log: seq<Entry<E>>, entry: Entry<E>)
    requires Position(log, entry.id) == |log|
    ensures var before, after := Replay(initial, log), Replay(initial, log + [entry]);
            && (entry.fact.Malformed? ==>
                  Refuses(before, after, Diagnostic(entry.id, None, InvalidEventShape, entry.fact.message)))
            && (entry.fact.Transition? ==>
                  match Next(before.lifecycle, entry.fact.step)
                  case Some(next) => Becomes(before, after, next, View(before.board))
                  case None => Refuses(before, after, Diagnostic(entry.id, None, InvalidLifecycleTransition,
                                                                 TransitionFrom(before.lifecycle))))
            && (!entry.fact.Malformed? && !entry.fact.Transition? && IsTerminal(before.lifecycle) ==>
                  Refuses(before, after, Diagnostic(entry.id, None, InvalidLifecycleTransition, AfterTerminal)))
            && (entry.fact.Operational? && !IsTerminal(before.lifecycle) ==>
                  if before.lifecycle == Running then Becomes(before, after, Running, View(before.board))
                  else Refuses(before, after, Diagnostic(entry.id, None, InvalidLifecycleTransition, RequiresRunning)))
            && (entry.fact.Original? && !IsTerminal(before.lifecycle) ==>
                  Becomes(before, after, before.lifecycle, View(before.board) + [entry.fact.value]))
  {
    var before := Replay(initial, log);
    ReplayAppend(initial, log, entry);
    hide Replay, View, Position, Next;
    ViewBlank(before.board);
    if entry.fact.Original? {
      ViewGrows(before.board, entry.fact.value);
    }
  }

  lemma {:induction false} UnmatchedCorrection<E>(initial: Lifecycle, log: seq<Entry<E>>, entry: Entry<E>)
    requires Position(log, entry.id) == |log| && entry.fact.Correction?
    requires !IsTerminal(Replay(initial, log).lifecycle) && !Admitted(initial, log, entry.fact.target)
    ensures Refuses(Replay(initial, log), Replay(initial, log + [entry]),
                    Diagnostic(entry.id, Some(entry.fact.target), InvalidCorrectionTarget, TargetNotEarlier))
  {
    ReplayAppend(initial, log, entry);
    AdmittedIffHeld(initial, log, entry.fact.target);
    hide Replay, View, Position, Admitted;
    ViewBlank(Replay(initial, log).board);
  }

  /** What a correction does, seen from outside. */
  lemma {:induction false} CorrectionEntry<E>(initial: Lifecycle, log: seq<Entry<E>>, id: string, target: string,
                                              value: Option<E>)
    requires Position(log, id) == |log|
    ensures var before, after := Replay(initial, log), Replay(initial, log + [Entry(id, Correction(target, value))]);
            if IsTerminal(before.lifecycle) then
              Refuses(before, after, Diagnostic(id, None, InvalidLifecycleTransition, AfterTerminal))
            else if !Admitted(initial, log, target) then
              Refuses(before, after, Diagnostic(id, Some(target), InvalidCorrectionTarget, TargetNotEarlier))
            else
              && Exchanges(View(before.board), View(after.board), if value.Some? then [value.value] else [])
              && Becomes(before, after, before.lifecycle, View(after.board))
  {
    var entry := Entry(id, Correction(target, value));
    hide Replay, View, Values, Admitted, Exchanges, Position;
    if IsTerminal(Replay(initial, log).lifecycle) {
      PlainEntry(initial, log, entry);
    } else if Admitted(initial, log, target) {
      CorrectionExchanges(initial, log, entry);
      OneOrNone(value);
    } else {
      UnmatchedCorrection(initial, log, entry);
    }
  }

  lemma {:induction false} RepeatedEntry<E>(initial: Lifecycle, log: seq<Entry<E>>, entry: Entry<E>)
    requires Position(log, entry.id) < |log|
    ensures Refuses(Replay(initial, log), Replay(initial, log + [entry]),
                    Diagnostic(entry.id, None, DuplicateEventId, IdDuplicated))
  {
    ReplayAppend(initial, log, entry);
    hide Replay, View, Position;
    ViewBlank(Replay(initial, log).board);
  }

  /** Between which lifecycles an event moves a session. */
  datatype Move = Move(from: set<Lifecycle>, to: Lifecycle)

  const ABANDONING: Move := Move({Draft, Ready, Running, Interrupted}, Abandoned)

  // ----- schema v3 -----

  /** The move of a lifecycle event. */
  ghost function MoveV3(p: PayloadV3): Move {
    match p
    case SessionStarted(_) => Move({Ready}, Running)
    case SessionInterrupted(_) => Move({Running}, Interrupted)
    case InterruptionDetected(_) => Move({Running}, Interrupted)
    case SessionResumed(_) => Move({Interrupted}, Running)
    case SessionEnded(_) => Move({Running, Interrupted}, Ended)
    case _ => ABANDONING
  }

  lemma NextIsMoveV3(current: Lifecycle, p: PayloadV3)
    requires IsLifecycleV3(p)
    ensures Next(current, StepV3(p)) == if current in MoveV3(p).from then Some(MoveV3(p).to) else None
  {
  }

  function WithDiagnosticV3(r: ReductionV3, e: EventV3, related: Option<string>, code: DiagnosticCode, message: Message)
    : ReductionV3
  {
    r.(diagnostics := r.diagnostics + [Diagnostic(e.eventId, related, code, message)])
  }

  /** An earlier event of this id is well-formed evidence that came before any end of the session. */
  ghost predicate CorrectableInV3(initial: Lifecycle, events: seq<EventV3>, target: string) {
    exists t :: 0 <= t < |events| && events[t].eventId == target
      && (forall j :: 0 <= j < t ==> events[j].eventId != target)
      && (events[t].payload.AntennaStateConfirmed? || events[t].payload.SignalStateConfirmed?
          || events[t].payload.SlotMissed? || events[t].payload.SlotBad? || events[t].payload.NoteAdded?)
      && FaultOf(DemandsV3(events[t])).None?
      && !IsTerminal(MeaningV3(initial, events[..t]).lifecycle)
  }

  /** The event makes the move, or is refused. */
  ghost predicate MovesV3(before: ReductionV3, after: ReductionV3, e: EventV3, move: Move) {
    if before.lifecycle in move.from then after == before.(lifecycle := move.to)
    else after == WithDiagnosticV3(before, e, None, InvalidLifecycleTransition, TransitionFrom(before.lifecycle))
  }

  /** The event is one of a running session and leaves no evidence, or is refused. */
  ghost predicate PassesV3(before: ReductionV3, after: ReductionV3, e: EventV3) {
    if before.lifecycle == Running then after == before
    else after == WithDiagnosticV3(before, e, None, InvalidLifecycleTransition,
                                   if IsTerminal(before.lifecycle) then AfterTerminal else RequiresRunning)
  }

  /** The event adds evidence with its own fields, or comes too late. */
  ghost predicate AddsV3(before: ReductionV3, after: ReductionV3, e: EventV3, payload: CorrectableV3) {
    if IsTerminal(before.lifecycle) then
      after == WithDiagnosticV3(before, e, None, InvalidLifecycleTransition, AfterTerminal)
    else
      after == before.(effectiveEvents := before.effectiveEvents + [OwnEvidenceV3(e, payload)])
  }

  /** The event retracts or replaces its target's evidence, or is refused. */
  ghost predicate CorrectsV3(before: ReductionV3, after: ReductionV3, e: EventV3, correctable: bool)
    requires e.payload.EventCorrected?
  {
    if IsTerminal(before.lifecycle) then
      after == WithDiagnosticV3(before, e, None, InvalidLifecycleTransition, AfterTerminal)
    else if !correctable then
      after == WithDiagnosticV3(before, e, Some(e.payload.targetEventId), InvalidCorrectionTarget, TargetNotEarlier)
    else
      && after.lifecycle == before.lifecycle && after.diagnostics == before.diagnostics
      && Exchanges(before.effectiveEvents, after.effectiveEvents,
                   if CorrectedV3(e).Some? then [CorrectedV3(e).value] else [])
  }

  /** What a well-formed event with a new id does. */
  ghost predicate TakesEffectV3(initial: Lifecycle, events: seq<EventV3>, e: EventV3) {
    var before, after := MeaningV3(initial, events), MeaningV3(initial, events + [e]);
    match e.payload
    case AntennaSwitchStarted(_) => PassesV3(before, after, e)
    case WsprCycleArmed(_, _, _) => PassesV3(before, after, e)
    case AntennaStateConfirmed(antenna, note) =>
      AddsV3(before, after, e, CorrectableV3.AntennaStateConfirmed(antenna, note))
    case SignalStateConfirmed(confirmation) =>
      AddsV3(before, after, e, CorrectableV3.SignalStateConfirmed(confirmation))
    case SlotMissed(reason) => AddsV3(before, after, e, CorrectableV3.SlotMissed(reason))
    case SlotBad(reason) => AddsV3(before, after, e, CorrectableV3.SlotBad(reason))
    case NoteAdded(note) => AddsV3(before, after, e, CorrectableV3.NoteAdded(note))
    case EventCorrected(target, _, _) => CorrectsV3(before, after, e, CorrectableInV3(initial, events, target))
    case _ => MovesV3(before, after, e, MoveV3(e.payload))
  }

  /** A position holds well-formed evidence that came before any end of the session. */
  lemma AcceptedByFieldsV3(initial: Lifecycle, events: seq<EventV3>, t: nat)
    requires t < |events|
    ensures AcceptedOriginal(initial, EntriesV3(events), t) <==>
              && (forall j :: 0 <= j < t ==> events[j].eventId != events[t].eventId)
              && (events[t].payload.AntennaStateConfirmed? || events[t].payload.SignalStateConfirmed?
                  || events[t].payload.SlotMissed? || events[t].payload.SlotBad? || events[t].payload.NoteAdded?)
              && FaultOf(DemandsV3(events[t])).None?
              && !IsTerminal(MeaningV3(initial, events[..t]).lifecycle)
  {
    var log := EntriesV3(events);
    ShapeFaultV3(events[t]);
    ReplayLifecycle(initial, log[..t]);
    assert log[..t] == EntriesV3(events[..t]);
    hide ShapeErrorV3, FaultOf, DemandsV3, Replay, View, LifecycleAfter;
    assert forall j :: 0 <= j < t ==> log[j].id == events[j].eventId;
  }

  lemma CorrectableIffAdmittedV3(initial: Lifecycle, events: seq<EventV3>, target: string)
    ensures CorrectableInV3(initial, events, target) <==> Admitted(initial, EntriesV3(events), target)
  {
    hide AcceptedOriginal, FaultOf, DemandsV3, MeaningV3, FactV3;
    forall t | 0 <= t < |events|
      ensures AcceptedOriginal(initial, EntriesV3(events), t) <==>
                && (forall j :: 0 <= j < t ==> events[j].eventId != events[t].eventId)
                && (events[t].payload.AntennaStateConfirmed? || events[t].payload.SignalStateConfirmed?
                    || events[t].payload.SlotMissed? || events[t].payload.SlotBad? || events[t].payload.NoteAdded?)
                && FaultOf(DemandsV3(events[t])).None?
                && !IsTerminal(MeaningV3(initial, events[..t]).lifecycle)
      ensures EntriesV3(events)[t].id == events[t].eventId
    {
      AcceptedByFieldsV3(initial, events, t);
    }
  }

  /** The next event's entry is new, and the longer log is replayed from it. */
  lemma NextEntryV3(initial: Lifecycle, events: seq<EventV3>, e: EventV3)
    requires forall i :: 0 <= i < |events| ==> events[i].eventId != e.eventId
    ensures var log := EntriesV3(events);
            && EntriesV3(events + [e]) == log + [EntryV3(e)] && Position(log, e.eventId) == |log|
            && EntryV3(e).id == e.eventId
            && (ShapeErrorV3(e) == FaultOf(DemandsV3(e)))
  {
    hide FactV3;
    ShapeFaultV3(e);
    EntriesAppendV3(events, e);
  }

  lemma LifecycleEventV3(initial: Lifecycle, events: seq<EventV3>, e: EventV3)
    requires forall i :: 0 <= i < |events| ==> events[i].eventId != e.eventId
    requires FaultOf(DemandsV3(e)).None? && IsLifecycleV3(e.payload)
    ensures TakesEffectV3(initial, events, e)
  {
    NextEntryV3(initial, events, e);
    SeenFromOutsideV3(initial, events, e);
    FactCasesV3(e);
    hide Replay, View, FaultOf, DemandsV3, EntriesV3, Position, ShapeErrorV3, FactV3, MeaningV3;
    PlainEntry(initial, EntriesV3(events), EntryV3(e));
    NextIsMoveV3(MeaningV3(initial, events).lifecycle, e.payload);
    hide Refuses, Becomes, Next, StepV3, MoveV3;
  }

  lemma OperationalEventV3(initial: Lifecycle, events: seq<EventV3>, e: EventV3)
    requires forall i :: 0 <= i < |events| ==> events[i].eventId != e.eventId
    requires FaultOf(DemandsV3(e)).None? && IsOperationalV3(e.payload)
    ensures TakesEffectV3(initial, events, e)
  {
    NextEntryV3(initial, events, e);
    SeenFromOutsideV3(initial, events, e);
    FactCasesV3(e);
    hide Replay, View, FaultOf, DemandsV3, EntriesV3, Position, ShapeErrorV3, FactV3, MeaningV3;
    PlainEntry(initial, EntriesV3(events), EntryV3(e));
    hide Refuses, Becomes;
  }

  /** The evidence that an event is, with its own fields. */
  ghost function OwnEvidenceV3(e: EventV3, payload: CorrectableV3): EffectiveV3 {
    EffectiveV3(e.meta.sessionId, e.eventId, e.eventId, e.meta.recordedAt, e.occurredAt, e.timeBasis,
                e.uncertaintySeconds, e.slotId, payload)
  }

  lemma EvidenceFactV3(e: EventV3)
    requires FaultOf(DemandsV3(e)).None?
    requires !IsLifecycleV3(e.payload) && !IsOperationalV3(e.payload) && !e.payload.EventCorrected?
    ensures CorrectablePayloadV3(e.payload).Some?
    ensures EntryV3(e) == Entry(e.eventId, Original(OwnEvidenceV3(e, CorrectablePayloadV3(e.payload).value)))
  {
    ShapeFaultV3(e);
    hide FaultOf, DemandsV3, ShapeErrorV3;
  }

  lemma EvidenceEventV3(initial: Lifecycle, events: seq<EventV3>, e: EventV3)
    requires forall i :: 0 <= i < |events| ==> events[i].eventId != e.eventId
    requires FaultOf(DemandsV3(e)).None?
    requires !IsLifecycleV3(e.payload) && !IsOperationalV3(e.payload) && !e.payload.EventCorrected?
    ensures CorrectablePayloadV3(e.payload).Some?
    ensures AddsV3(MeaningV3(initial, events), MeaningV3(initial, events + [e]), e,
                   CorrectablePayloadV3(e.payload).value)
  {
    NextEntryV3(initial, events, e);
    EvidenceFactV3(e);
    SeenFromOutsideV3(initial, events, e);
    hide Replay, View, FaultOf, DemandsV3, EntriesV3, Position, ShapeErrorV3, EntryV3, MeaningV3, OwnEvidenceV3,
         CorrectablePayloadV3;
    PlainEntry(initial, EntriesV3(events), EntryV3(e));
    hide Refuses, Becomes;
  }

  lemma EvidenceTakesEffectV3(initial: Lifecycle, events: seq<EventV3>, e: EventV3)
    requires CorrectablePayloadV3(e.payload).Some?
    requires AddsV3(MeaningV3(initial, events), MeaningV3(initial, events + [e]), e,
                    CorrectablePayloadV3(e.payload).value)
    ensures TakesEffectV3(initial, events, e)
  {
    hide AddsV3, MeaningV3, PassesV3, MovesV3, CorrectsV3;
  }

  lemma {:induction false} SeenFromOutsideV3(initial: Lifecycle, events: seq<EventV3>, e: EventV3)
    ensures var old_, new_ := Replay(initial, EntriesV3(events)), Replay(initial, EntriesV3(events + [e]));
            var before, after := MeaningV3(initial, events), MeaningV3(initial, events + [e]);
            && before == ReductionV3(old_.lifecycle, View(old_.board), old_.diagnostics)
            && after == ReductionV3(new_.lifecycle, View(new_.board), new_.diagnostics)
            && (forall d :: Refuses(old_, new_, d) ==>
                  after == before.(diagnostics := before.diagnostics + [d]))
            && (forall lifecycle, view :: Becomes(old_, new_, lifecycle, view) ==>
                  after == before.(lifecycle := lifecycle, effectiveEvents := view))
  {
    hide Replay, View, EntriesV3;
  }

  /** The evidence that a correction puts in the place of its target's. */
  ghost function CorrectedV3(e: EventV3): Option<EffectiveV3>
    requires e.payload.EventCorrected?
  {
    match e.payload.correction
    case Retract => None
    case Replace(r) => Some(EffectiveV3(e.meta.sessionId, e.payload.targetEventId, e.eventId, e.meta.recordedAt,
                                        r.occurredAt, r.timeBasis, r.uncertaintySeconds, r.slotId, r.payload))
  }

  lemma CorrectionFactV3(e: EventV3)
    requires FaultOf(DemandsV3(e)).None? && e.payload.EventCorrected?
    ensures EntryV3(e) == Entry(e.eventId, Correction(e.payload.targetEventId, CorrectedV3(e)))
  {
    ShapeFaultV3(e);
    hide FaultOf, DemandsV3, ShapeErrorV3;
  }

  lemma CorrectionEventV3(initial: Lifecycle, events: seq<EventV3>, e: EventV3)
    requires forall i :: 0 <= i < |events| ==> events[i].eventId != e.eventId
    requires FaultOf(DemandsV3(e)).None? && e.payload.EventCorrected?
    ensures CorrectsV3(MeaningV3(initial, events), MeaningV3(initial, events + [e]), e,
                       CorrectableInV3(initial, events, e.payload.targetEventId))
  {
    hide Replay, View, FaultOf, DemandsV3, EntriesV3, Position, ShapeErrorV3, EntryV3, Admitted, CorrectableInV3,
         Exchanges, MeaningV3, CorrectedV3;
    NextEntryV3(initial, events, e);
    CorrectionFactV3(e);
    CorrectableIffAdmittedV3(initial, events, e.payload.targetEventId);
    SeenFromOutsideV3(initial, events, e);
    CorrectionEntry(initial, EntriesV3(events), e.eventId, e.payload.targetEventId, CorrectedV3(e));
    hide Refuses, Becomes;
  }

  lemma CorrectionTakesEffectV3(initial: Lifecycle, events: seq<EventV3>, e: EventV3)
    requires e.payload.EventCorrected?
    requires CorrectsV3(MeaningV3(initial, events), MeaningV3(initial, events + [e]), e,
                        CorrectableInV3(initial, events, e.payload.targetEventId))
    ensures TakesEffectV3(initial, events, e)
  {
    hide CorrectsV3, MeaningV3, CorrectableInV3, AddsV3, PassesV3, MovesV3;
  }

  lemma MalformedEventV3(initial: Lifecycle, events: seq<EventV3>, e: EventV3)
    requires forall i :: 0 <= i < |events| ==> events[i].eventId != e.eventId
    requires FaultOf(DemandsV3(e)).Some?
    ensures MeaningV3(initial, events + [e]) == WithDiagnosticV3(MeaningV3(initial, events), e, None, InvalidEventShape,
                                                                  FaultOf(DemandsV3(e)).value)
  {
    NextEntryV3(initial, events, e);
    SeenFromOutsideV3(initial, events, e);
    hide Replay, View, FaultOf, DemandsV3, EntriesV3, Position, ShapeErrorV3, Refuses, Becomes;
    PlainEntry(initial, EntriesV3(events), EntryV3(e));
  }

  /**
   One more event with a new id is refused for the first demand that its fields do not meet; if they meet them all, it
   does what its payload says.
   */
  lemma NextEventV3(initial: Lifecycle, events: seq<EventV3>, e: EventV3)
    requires forall i :: 0 <= i < |events| ==> events[i].eventId != e.eventId
    ensures var before, after, fault := MeaningV3(initial, events), MeaningV3(initial, events + [e]),
                                        FaultOf(DemandsV3(e));
            if fault.Some? then after == WithDiagnosticV3(before, e, None, InvalidEventShape, fault.value)
            else TakesEffectV3(initial, events, e)
  {
    hide *;
    if FaultOf(DemandsV3(e)).Some? {
      MalformedEventV3(initial, events, e);
    } else if e.payload.EventCorrected? {
      CorrectionEventV3(initial, events, e);
      CorrectionTakesEffectV3(initial, events, e);
    } else if IsLifecycleV3(e.payload) {
      LifecycleEventV3(initial, events, e);
    } else if IsOperationalV3(e.payload) {
      OperationalEventV3(initial, events, e);
    } else {
      EvidenceEventV3(initial, events, e);
      EvidenceTakesEffectV3(initial, events, e);
    }
  }

  /** An event whose id came before only adds the diagnostic that says so. */
  lemma RepeatedEventV3(initial: Lifecycle, events: seq<EventV3>, e: EventV3)
    requires exists i :: 0 <= i < |events| && events[i].eventId == e.eventId
    ensures MeaningV3(initial, events + [e])
            == WithDiagnosticV3(MeaningV3(initial, events), e, None, DuplicateEventId, IdDuplicated)
  {
    hide Replay, View, FactV3;
    var i :| 0 <= i < |events| && events[i].eventId == e.eventId;
    assert EntriesV3(events)[i].id == e.eventId;
    EntriesAppendV3(events, e);
    RepeatedEntry(initial, EntriesV3(events), EntryV3(e));
  }

  /**
   Arming a cycle in a running session is accepted without a trace if and only if it names a slot and a proper label and
   the cycle starts one second into an even minute and not before the arming.  If it only starts before, that is the
   diagnostic.
   */
  lemma ArmedCycles(initial: Lifecycle, events: seq<EventV3>, e: EventV3)
    requires forall i :: 0 <= i < |events| ==> events[i].eventId != e.eventId
    requires e.payload.WsprCycleArmed? && !IsTerminal(MeaningV3(initial, events).lifecycle)
    ensures var before, after := MeaningV3(initial, events), MeaningV3(initial, events + [e]);
            var antenna, startsAt := e.payload.antennaLabel, e.payload.cycleStartsAt;
            var aligned := e.slotId.Some? && antenna != "" && CleanEnds(antenna) && startsAt % TWO_MINUTES == SECOND;
            && (after == before <==> aligned && startsAt >= e.occurredAt && before.lifecycle == Running)
            && (aligned && startsAt < e.occurredAt ==>
                  after == WithDiagnosticV3(before, e, None, InvalidEventShape, CycleStartsEarly))
            && (aligned && startsAt >= e.occurredAt && before.lifecycle != Running ==>
                  after == WithDiagnosticV3(before, e, None, InvalidLifecycleTransition, RequiresRunning))
            && after.lifecycle == before.lifecycle && after.effectiveEvents == before.effectiveEvents
  {
    NextEventV3(initial, events, e);
    var demands := DemandsV3(e);
    CorrectionFault(demands[0], demands[1], demands[2], [demands[3]]);
    FaultOfOne(demands[3]);
    assert demands == [demands[0], demands[1], demands[2]] + [demands[3]];
    hide MeaningV3, FaultOf, CleanEnds;
  }

  // ----- schema v2 -----

  /** The move of a lifecycle event. */
  ghost function MoveV2(p: PayloadV2): Move {
    match p
    case SessionStarted(_) => Move({Ready}, Running)
    case SessionInterrupted(_) => Move({Running}, Interrupted)
    case InterruptionDetected(_) => Move({Running}, Interrupted)
    case SessionResumed(_) => Move({Interrupted}, Running)
    case SessionEnded(_) => Move({Running, Interrupted}, Ended)
    case _ => ABANDONING
  }

  lemma NextIsMoveV2(current: Lifecycle, p: PayloadV2)
    requires IsLifecycleV2(p)
    ensures Next(current, StepV2(p)) == if current in MoveV2(p).from then Some(MoveV2(p).to) else None
  {
  }

  function WithDiagnosticV2(r: ReductionV2, e: EventV2, related: Option<string>, code: DiagnosticCode, message: Message)
    : ReductionV2
  {
    r.(diagnostics := r.diagnostics + [Diagnostic(e.eventId, related, code, message)])
  }

  /** An earlier event of this id is well-formed evidence that came before any end of the session. */
  ghost predicate CorrectableInV2(initial: Lifecycle, events: seq<EventV2>, target: string) {
    exists t :: 0 <= t < |events| && events[t].eventId == target
      && (forall j :: 0 <= j < t ==> events[j].eventId != target)
      && (events[t].payload.AntennaStateConfirmed? || events[t].payload.SlotMissed?
        || events[t].payload.SlotBad? || events[t].payload.NoteAdded?)
      && FaultOf(DemandsV2(events[t])).None?
      && !IsTerminal(MeaningV2(initial, events[..t]).lifecycle)
  }

  /** The event makes the move, or is refused. */
  ghost predicate MovesV2(before: ReductionV2, after: ReductionV2, e: EventV2, move: Move) {
    if before.lifecycle in move.from then after == before.(lifecycle := move.to)
    else after == WithDiagnosticV2(before, e, None, InvalidLifecycleTransition, TransitionFrom(before.lifecycle))
  }

  /** The event adds evidence with its own fields, or comes too late. */
  ghost predicate AddsV2(before: ReductionV2, after: ReductionV2, e: EventV2, payload: CorrectableV2) {
    if IsTerminal(before.lifecycle) then
      after == WithDiagnosticV2(before, e, None, InvalidLifecycleTransition, AfterTerminal)
    else
      after == before.(effectiveEvents := before.effectiveEvents + [OwnEvidenceV2(e, payload)])
  }

  /** The event retracts or replaces its target's evidence, or is refused. */
  ghost predicate CorrectsV2(before: ReductionV2, after: ReductionV2, e: EventV2, correctable: bool)
    requires e.payload.EventCorrected?
  {
    if IsTerminal(before.lifecycle) then
      after == WithDiagnosticV2(before, e, None, InvalidLifecycleTransition, AfterTerminal)
    else if !correctable then
      after == WithDiagnosticV2(before, e, Some(e.payload.targetEventId), InvalidCorrectionTarget, TargetNotEarlier)
    else
      && after.lifecycle == before.lifecycle && after.diagnostics == before.diagnostics
      && Exchanges(before.effectiveEvents, after.effectiveEvents,
                   if CorrectedV2(e).Some? then [CorrectedV2(e).value] else [])
  }

  /** What a well-formed event with a new id does. */
  ghost predicate TakesEffectV2(initial: Lifecycle, events: seq<EventV2>, e: EventV2) {
    var before, after := MeaningV2(initial, events), MeaningV2(initial, events + [e]);
    match e.payload
    case AntennaStateConfirmed(antenna, note) =>
      AddsV2(before, after, e, CorrectableV2.AntennaStateConfirmed(antenna, note))
    case SlotMissed(reason) => AddsV2(before, after, e, CorrectableV2.SlotMissed(reason))
    case SlotBad(reason) => AddsV2(before, after, e, CorrectableV2.SlotBad(reason))
    case NoteAdded(note) => AddsV2(before, after, e, CorrectableV2.NoteAdded(note))
    case EventCorrected(target, _, _) => CorrectsV2(before, after, e, CorrectableInV2(initial, events, target))
    case _ => MovesV2(before, after, e, MoveV2(e.payload))
  }

  /** A position holds well-formed evidence that came before any end of the session. */
  lemma AcceptedByFieldsV2(initial: Lifecycle, events: seq<EventV2>, t: nat)
    requires t < |events|
    ensures AcceptedOriginal(initial, EntriesV2(events), t) <==>
              && (forall j :: 0 <= j < t ==> events[j].eventId != events[t].eventId)
              && (events[t].payload.AntennaStateConfirmed? || events[t].payload.SlotMissed?
                 || events[t].payload.SlotBad? || events[t].payload.NoteAdded?)
              && FaultOf(DemandsV2(events[t])).None?
              && !IsTerminal(MeaningV2(initial, events[..t]).lifecycle)
  {
    var log := EntriesV2(events);
    ShapeFaultV2(events[t]);
    ReplayLifecycle(initial, log[..t]);
    assert log[..t] == EntriesV2(events[..t]);
    hide ShapeErrorV2, FaultOf, DemandsV2, Replay, View, LifecycleAfter;
    assert forall j :: 0 <= j < t ==> log[j].id == events[j].eventId;
  }

  lemma CorrectableIffAdmittedV2(initial: Lifecycle, events: seq<EventV2>, target: string)
    ensures CorrectableInV2(initial, events, target) <==> Admitted(initial, EntriesV2(events), target)
  {
    hide AcceptedOriginal, FaultOf, DemandsV2, MeaningV2, FactV2;
    forall t | 0 <= t < |events|
      ensures AcceptedOriginal(initial, EntriesV2(events), t) <==>
                && (forall j :: 0 <= j < t ==> events[j].eventId != events[t].eventId)
                && (events[t].payload.AntennaStateConfirmed? || events[t].payload.SlotMissed?
                   || events[t].payload.SlotBad? || events[t].payload.NoteAdded?)
                && FaultOf(DemandsV2(events[t])).None?
                && !IsTerminal(MeaningV2(initial, events[..t]).lifecycle)
      ensures EntriesV2(events)[t].id == events[t].eventId
    {
      AcceptedByFieldsV2(initial, events, t);
    }
  }

  /** The next event's entry is new, and the longer log is replayed from it. */
  lemma NextEntryV2(initial: Lifecycle, events: seq<EventV2>, e: EventV2)
    requires forall i :: 0 <= i < |events| ==> events[i].eventId != e.eventId
    ensures var log := EntriesV2(events);
            && EntriesV2(events + [e]) == log + [EntryV2(e)] && Position(log, e.eventId) == |log|
            && EntryV2(e).id == e.eventId
            && (ShapeErrorV2(e) == FaultOf(DemandsV2(e)))
  {
    hide FactV2;
    ShapeFaultV2(e);
    EntriesAppendV2(events, e);
  }

  lemma LifecycleEventV2(initial: Lifecycle, events: seq<EventV2>, e: EventV2)
    requires forall i :: 0 <= i < |events| ==> events[i].eventId != e.eventId
    requires FaultOf(DemandsV2(e)).None? && IsLifecycleV2(e.payload)
    ensures TakesEffectV2(initial, events, e)
  {
    NextEntryV2(initial, events, e);
    SeenFromOutsideV2(initial, events, e);
    FactCasesV2(e);
    hide Replay, View, FaultOf, DemandsV2, EntriesV2, Position, ShapeErrorV2, FactV2, MeaningV2;
    PlainEntry(initial, EntriesV2(events), EntryV2(e));
    NextIsMoveV2(MeaningV2(initial, events).lifecycle, e.payload);
    hide Refuses, Becomes, Next, StepV2, MoveV2;
  }

  /** The evidence that an event is, with its own fields. */
  ghost function OwnEvidenceV2(e: EventV2, payload: CorrectableV2): EffectiveV2 {
    EffectiveV2(e.meta.sessionId, e.eventId, e.eventId, e.meta.recordedAt, e.occurredAt, e.timeBasis,
                e.uncertaintySeconds, e.slotId, payload)
  }

  lemma EvidenceFactV2(e: EventV2)
    requires FaultOf(DemandsV2(e)).None?
    requires !IsLifecycleV2(e.payload) && !e.payload.EventCorrected?
    ensures CorrectablePayloadV2(e.payload).Some?
    ensures EntryV2(e) == Entry(e.eventId, Original(OwnEvidenceV2(e, CorrectablePayloadV2(e.payload).value)))
  {
    ShapeFaultV2(e);
    hide FaultOf, DemandsV2, ShapeErrorV2;
  }

  lemma EvidenceEventV2(initial: Lifecycle, events: seq<EventV2>, e: EventV2)
    requires forall i :: 0 <= i < |events| ==> events[i].eventId != e.eventId
    requires FaultOf(DemandsV2(e)).None?
    requires !IsLifecycleV2(e.payload) && !e.payload.EventCorrected?
    ensures CorrectablePayloadV2(e.payload).Some?
    ensures AddsV2(MeaningV2(initial, events), MeaningV2(initial, events + [e]), e,
                   CorrectablePayloadV2(e.payload).value)
  {
    NextEntryV2(initial, events, e);
    EvidenceFactV2(e);
    SeenFromOutsideV2(initial, events, e);
    hide Replay, View, FaultOf, DemandsV2, EntriesV2, Position, ShapeErrorV2, EntryV2, MeaningV2, OwnEvidenceV2,
         CorrectablePayloadV2;
    PlainEntry(initial, EntriesV2(events), EntryV2(e));
    hide Refuses, Becomes;
  }

  lemma EvidenceTakesEffectV2(initial: Lifecycle, events: seq<EventV2>, e: EventV2)
    requires CorrectablePayloadV2(e.payload).Some?
    requires AddsV2(MeaningV2(initial, events), MeaningV2(initial, events + [e]), e,
                    CorrectablePayloadV2(e.payload).value)
    ensures TakesEffectV2(initial, events, e)
  {
    hide AddsV2, MeaningV2, MovesV2, CorrectsV2;
  }

  lemma {:induction false} SeenFromOutsideV2(initial: Lifecycle, events: seq<EventV2>, e: EventV2)
    ensures var old_, new_ := Replay(initial, EntriesV2(events)), Replay(initial, EntriesV2(events + [e]));
            var before, after := MeaningV2(initial, events), MeaningV2(initial, events + [e]);
            && before == ReductionV2(old_.lifecycle, View(old_.board), old_.diagnostics)
            && after == ReductionV2(new_.lifecycle, View(new_.board), new_.diagnostics)
            && (forall d :: Refuses(old_, new_, d) ==>
                  after == before.(diagnostics := before.diagnostics + [d]))
            && (forall lifecycle, view :: Becomes(old_, new_, lifecycle, view) ==>
                  after == before.(lifecycle := lifecycle, effectiveEvents := view))
  {
    hide Replay, View, EntriesV2;
  }

  /** The evidence that a correction puts in the place of its target's. */
  ghost function CorrectedV2(e: EventV2): Option<EffectiveV2>
    requires e.payload.EventCorrected?
  {
    match e.payload.correction
    case Retract => None
    case Replace(r) => Some(EffectiveV2(e.meta.sessionId, e.payload.targetEventId, e.eventId, e.meta.recordedAt,
                                        r.occurredAt, r.timeBasis, r.uncertaintySeconds, r.slotId, r.payload))
  }

  lemma CorrectionFactV2(e: EventV2)
    requires FaultOf(DemandsV2(e)).None? && e.payload.EventCorrected?
    ensures EntryV2(e) == Entry(e.eventId, Correction(e.payload.targetEventId, CorrectedV2(e)))
  {
    ShapeFaultV2(e);
    hide FaultOf, DemandsV2, ShapeErrorV2;
  }

  lemma CorrectionEventV2(initial: Lifecycle, events: seq<EventV2>, e: EventV2)
    requires forall i :: 0 <= i < |events| ==> events[i].eventId != e.eventId
    requires FaultOf(DemandsV2(e)).None? && e.payload.EventCorrected?
    ensures CorrectsV2(MeaningV2(initial, events), MeaningV2(initial, events + [e]), e,
                       CorrectableInV2(initial, events, e.payload.targetEventId))
  {
    hide Replay, View, FaultOf, DemandsV2, EntriesV2, Position, ShapeErrorV2, EntryV2, Admitted, CorrectableInV2,
         Exchanges, MeaningV2, CorrectedV2;
    NextEntryV2(initial, events, e);
    CorrectionFactV2(e);
    CorrectableIffAdmittedV2(initial, events, e.payload.targetEventId);
    SeenFromOutsideV2(initial, events, e);
    CorrectionEntry(initial, EntriesV2(events), e.eventId, e.payload.targetEventId, CorrectedV2(e));
    hide Refuses, Becomes;
  }

  lemma CorrectionTakesEffectV2(initial: Lifecycle, events: seq<EventV2>, e: EventV2)
    requires e.payload.EventCorrected?
    requires CorrectsV2(MeaningV2(initial, events), MeaningV2(initial, events + [e]), e,
                        CorrectableInV2(initial, events, e.payload.targetEventId))
    ensures TakesEffectV2(initial, events, e)
  {
    hide CorrectsV2, MeaningV2, CorrectableInV2, AddsV2, MovesV2;
  }

  lemma MalformedEventV2(initial: Lifecycle, events: seq<EventV2>, e: EventV2)
    requires forall i :: 0 <= i < |events| ==> events[i].eventId != e.eventId
    requires FaultOf(DemandsV2(e)).Some?
    ensures MeaningV2(initial, events + [e]) == WithDiagnosticV2(MeaningV2(initial, events), e, None, InvalidEventShape,
                                                                  FaultOf(DemandsV2(e)).value)
  {
    NextEntryV2(initial, events, e);
    SeenFromOutsideV2(initial, events, e);
    hide Replay, View, FaultOf, DemandsV2, EntriesV2, Position, ShapeErrorV2, Refuses, Becomes;
    PlainEntry(initial, EntriesV2(events), EntryV2(e));
  }

  /**
   One more event with a new id is refused for the first demand that its fields do not meet; if they meet them all, it
   does what its payload says.
   */
  lemma NextEventV2(initial: Lifecycle, events: seq<EventV2>, e: EventV2)
    requires forall i :: 0 <= i < |events| ==> events[i].eventId != e.eventId
    ensures var before, after, fault := MeaningV2(initial, events), MeaningV2(initial, events + [e]),
                                        FaultOf(DemandsV2(e));
            if fault.Some? then after == WithDiagnosticV2(before, e, None, InvalidEventShape, fault.value)
            else TakesEffectV2(initial, events, e)
  {
    hide *;
    if FaultOf(DemandsV2(e)).Some? {
      MalformedEventV2(initial, events, e);
    } else if e.payload.EventCorrected? {
      CorrectionEventV2(initial, events, e);
      CorrectionTakesEffectV2(initial, events, e);
    } else if IsLifecycleV2(e.payload) {
      LifecycleEventV2(initial, events, e);
    } else {
      EvidenceEventV2(initial, events, e);
      EvidenceTakesEffectV2(initial, events, e);
    }
  }

  /** An event whose id came before only adds the diagnostic that says so. */
  lemma RepeatedEventV2(initial: Lifecycle, events: seq<EventV2>, e: EventV2)
    requires exists i :: 0 <= i < |events| && events[i].eventId == e.eventId
    ensures MeaningV2(initial, events + [e])
            == WithDiagnosticV2(MeaningV2(initial, events), e, None, DuplicateEventId, IdDuplicated)
  {
    hide Replay, View, FactV2;
    var i :| 0 <= i < |events| && events[i].eventId == e.eventId;
    assert EntriesV2(events)[i].id == e.eventId;
    EntriesAppendV2(events, e);
    RepeatedEntry(initial, EntriesV2(events), EntryV2(e));
  }
}
