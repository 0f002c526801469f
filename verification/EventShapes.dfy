/** Per-event rules of both schemas: lifecycle transitions, shape checks and classification. */
module EventShapes {
  import opened Prelude
  import opened Records
  import opened EventTypes
  import opened EventLog

  /** A WSPR cycle starts one second into an even UTC minute. */
  predicate IsWsprCycleStart(at: Instant) {
    at % SECOND == 0 && (at / SECOND) % 120 == 1
  }

  predicate BadLabel(antenna: string) {
    Trim(antenna) == "" || Trim(antenna) != antenna
  }

  function Check(failed: bool, message: Message): Option<Message> {
    if failed then Some(message) else None
  }

  function OrElse(first: Option<Message>, second: Option<Message>): Option<Message> {
    if first.Some? then first else second
  }

  // ----- schema v2 -----

  predicate IsLifecycleV2(p: PayloadV2) {
    p.SessionStarted? || p.SessionInterrupted? || p.InterruptionDetected? || p.SessionResumed?
    || p.SessionEnded? || p.SessionAbandoned?
  }

  function ApplyTransitionV2(current: Lifecycle, p: PayloadV2): Result<Lifecycle, Message> {
    match (current, p)
    case (Ready, SessionStarted(_)) => Ok(Running)
    case (Running, SessionInterrupted(_)) => Ok(Interrupted)
    case (Running, InterruptionDetected(_)) => Ok(Interrupted)
    case (Interrupted, SessionResumed(_)) => Ok(Running)
    case (Running, SessionEnded(_)) => Ok(Ended)
    case (Interrupted, SessionEnded(_)) => Ok(Ended)
    case (Draft, SessionAbandoned(_)) => Ok(Abandoned)
    case (Ready, SessionAbandoned(_)) => Ok(Abandoned)
    case (Running, SessionAbandoned(_)) => Ok(Abandoned)
    case (Interrupted, SessionAbandoned(_)) => Ok(Abandoned)
    case (from, _) => if IsLifecycleV2(p) then Err(TransitionFrom(from)) else Err(NotALifecycleTransition)
  }

  function ReplacementShapeErrorV2(r: ReplacementV2): Option<Message> {
    match r.payload
    case AntennaStateConfirmed(antenna, _) =>
      OrElse(Check(r.slotId.None?, ReplacementSlotRequired(ConfirmationKind)),
             Check(BadLabel(antenna), ReplacementLabelNotTrimmed))
    case SlotMissed(_) => Check(r.slotId.None?, ReplacementSlotRequired(MissedKind))
    case SlotBad(reason) =>
      OrElse(Check(r.slotId.None?, ReplacementSlotRequired(BadKind)),
             Check(IsBlank(reason), ReplacementTextEmpty(BadKind)))
    case NoteAdded(note) => Check(IsBlank(note), ReplacementTextEmpty(NoteKind))
  }

  function ShapeErrorV2(e: EventV2): Option<Message> {
    if IsLifecycleV2(e.payload) then Check(e.slotId.Some?, LifecycleNamesSlot)
    else
      match e.payload
      case AntennaStateConfirmed(antenna, _) =>
        OrElse(Check(e.slotId.None?, SlotRequired(ConfirmationKind)),
               Check(BadLabel(antenna), LabelNotTrimmed(ConfirmationKind)))
      case SlotMissed(_) => Check(e.slotId.None?, SlotRequired(MissedKind))
      case SlotBad(reason) =>
        OrElse(Check(e.slotId.None?, SlotRequired(BadKind)), Check(IsBlank(reason), TextEmpty(BadKind)))
      case NoteAdded(note) => Check(IsBlank(note), TextEmpty(NoteKind))
      case EventCorrected(target, correction, reason) =>
        if e.slotId.Some? then Some(CorrectionNamesSlot)
        else if IsBlank(target) then Some(CorrectionTargetEmpty)
        else if IsBlank(reason) then Some(CorrectionReasonEmpty)
        else (match correction
              case Retract => None
              case Replace(replacement) => ReplacementShapeErrorV2(replacement))
      case _ => None
  }

  function CorrectablePayloadV2(p: PayloadV2): Option<CorrectableV2> {
    match p
    case AntennaStateConfirmed(antenna, note) => Some(CorrectableV2.AntennaStateConfirmed(antenna, note))
    case SlotMissed(reason) => Some(CorrectableV2.SlotMissed(reason))
    case SlotBad(reason) => Some(CorrectableV2.SlotBad(reason))
    case NoteAdded(note) => Some(CorrectableV2.NoteAdded(note))
    case _ => None
  }

  function EffectiveFromReplacementV2(target: string, correction: EventV2, r: ReplacementV2): EffectiveV2 {
    EffectiveV2(correction.meta.sessionId, target, correction.eventId, correction.meta.recordedAt,
                r.occurredAt, r.timeBasis, r.uncertaintySeconds, r.slotId, r.payload)
  }

  function EffectiveFromOriginalV2(e: EventV2, payload: CorrectableV2): EffectiveV2 {
    EffectiveV2(e.meta.sessionId, e.eventId, e.eventId, e.meta.recordedAt,
                e.occurredAt, e.timeBasis, e.uncertaintySeconds, e.slotId, payload)
  }

  function StepV2(p: PayloadV2): LifecycleStep
    requires IsLifecycleV2(p)
  {
    match p
    case SessionStarted(_) => Start
    case SessionInterrupted(_) => Interrupt
    case InterruptionDetected(_) => DetectInterruption
    case SessionResumed(_) => Resume
    case SessionEnded(_) => End
    case SessionAbandoned(_) => Abandon
  }

  function FactV2(e: EventV2): Fact<EffectiveV2> {
    var shape := ShapeErrorV2(e);
    if shape.Some? then Malformed(shape.value)
    else if IsLifecycleV2(e.payload) then Transition(StepV2(e.payload))
    else if e.payload.EventCorrected? then
      match e.payload.correction
      case Retract => Correction(e.payload.targetEventId, None)
      case Replace(r) => Correction(e.payload.targetEventId,
                                    Some(EffectiveFromReplacementV2(e.payload.targetEventId, e, r)))
    else Original(EffectiveFromOriginalV2(e, CorrectablePayloadV2(e.payload).value))
  }

  function EntryV2(e: EventV2): Entry<EffectiveV2> {
    Entry(e.eventId, FactV2(e))
  }

  function EntriesV2(events: seq<EventV2>): (log: seq<Entry<EffectiveV2>>)
    ensures |log| == |events|
    ensures forall i :: 0 <= i < |log| ==> log[i] == EntryV2(events[i])
  {
    seq(|events|, i requires 0 <= i < |events| => EntryV2(events[i]))
  }

  lemma TransitionsAgreeV2(current: Lifecycle, p: PayloadV2)
    requires IsLifecycleV2(p)
    ensures ApplyTransitionV2(current, p) ==
              match Next(current, StepV2(p))
              case Some(next) => Ok(next)
              case None => Err(TransitionFrom(current))
  {
  }

  // ----- schema v3 -----

  predicate IsLifecycleV3(p: PayloadV3) {
    p.SessionStarted? || p.SessionInterrupted? || p.InterruptionDetected? || p.SessionResumed?
    || p.SessionEnded? || p.SessionAbandoned?
  }

  predicate IsOperationalV3(p: PayloadV3) {
    p.AntennaSwitchStarted? || p.WsprCycleArmed?
  }

  function ApplyTransitionV3(current: Lifecycle, p: PayloadV3): Result<Lifecycle, Message> {
    match (current, p)
    case (Ready, SessionStarted(_)) => Ok(Running)
    case (Running, SessionInterrupted(_)) => Ok(Interrupted)
    case (Running, InterruptionDetected(_)) => Ok(Interrupted)
    case (Interrupted, SessionResumed(_)) => Ok(Running)
    case (Running, SessionEnded(_)) => Ok(Ended)
    case (Interrupted, SessionEnded(_)) => Ok(Ended)
    case (Draft, SessionAbandoned(_)) => Ok(Abandoned)
    case (Ready, SessionAbandoned(_)) => Ok(Abandoned)
    case (Running, SessionAbandoned(_)) => Ok(Abandoned)
    case (Interrupted, SessionAbandoned(_)) => Ok(Abandoned)
    case (from, _) => if IsLifecycleV3(p) then Err(TransitionFrom(from)) else Err(NotALifecycleTransition)
  }

  function ReplacementShapeErrorV3(r: ReplacementV3): Option<Message> {
    match r.payload
    case AntennaStateConfirmed(antenna, _) =>
      OrElse(Check(r.slotId.None?, ReplacementSlotRequired(ConfirmationKind)),
             Check(BadLabel(antenna), ReplacementLabelNotTrimmed))
    case SignalStateConfirmed(_) => Check(r.slotId.None?, ReplacementSlotRequired(SignalKind))
    case SlotMissed(_) => Check(r.slotId.None?, ReplacementSlotRequired(MissedKind))
    case SlotBad(reason) =>
      OrElse(Check(r.slotId.None?, ReplacementSlotRequired(BadKind)),
             Check(IsBlank(reason), ReplacementTextEmpty(BadKind)))
    case NoteAdded(note) => Check(IsBlank(note), ReplacementTextEmpty(NoteKind))
  }

  function ShapeErrorV3(e: EventV3): Option<Message> {
    if IsLifecycleV3(e.payload) then Check(e.slotId.Some?, LifecycleNamesSlot)
    else
      match e.payload
      case AntennaSwitchStarted(_) => Check(e.slotId.Some?, SwitchNamesSlot)
      case WsprCycleArmed(antenna, startsAt, _) =>
        OrElse(Check(e.slotId.None?, SlotRequired(ArmedKind)),
        OrElse(Check(BadLabel(antenna), LabelNotTrimmed(ArmedKind)),
        OrElse(Check(!IsWsprCycleStart(startsAt), CycleStartMisaligned),
               Check(startsAt < e.occurredAt, CycleStartsEarly))))
      case AntennaStateConfirmed(antenna, _) =>
        OrElse(Check(e.slotId.None?, SlotRequired(ConfirmationKind)),
               Check(BadLabel(antenna), LabelNotTrimmed(ConfirmationKind)))
      case SignalStateConfirmed(_) => Check(e.slotId.None?, SlotRequired(SignalKind))
      case SlotMissed(_) => Check(e.slotId.None?, SlotRequired(MissedKind))
      case SlotBad(reason) =>
        OrElse(Check(e.slotId.None?, SlotRequired(BadKind)), Check(IsBlank(reason), TextEmpty(BadKind)))
      case NoteAdded(note) => Check(IsBlank(note), TextEmpty(NoteKind))
      case EventCorrected(target, correction, reason) =>
        if e.slotId.Some? then Some(CorrectionNamesSlot)
        else if IsBlank(target) then Some(CorrectionTargetEmpty)
        else if IsBlank(reason) then Some(CorrectionReasonEmpty)
        else (match correction
              case Retract => None
              case Replace(replacement) => ReplacementShapeErrorV3(replacement))
      case _ => None
  }

  function CorrectablePayloadV3(p: PayloadV3): Option<CorrectableV3> {
    match p
    case AntennaStateConfirmed(antenna, note) => Some(CorrectableV3.AntennaStateConfirmed(antenna, note))
    case SignalStateConfirmed(confirmation) => Some(CorrectableV3.SignalStateConfirmed(confirmation))
    case SlotMissed(reason) => Some(CorrectableV3.SlotMissed(reason))
    case SlotBad(reason) => Some(CorrectableV3.SlotBad(reason))
    case NoteAdded(note) => Some(CorrectableV3.NoteAdded(note))
    case _ => None
  }

  function EffectiveFromReplacementV3(target: string, correction: EventV3, r: ReplacementV3): EffectiveV3 {
    EffectiveV3(correction.meta.sessionId, target, correction.eventId, correction.meta.recordedAt,
                r.occurredAt, r.timeBasis, r.uncertaintySeconds, r.slotId, r.payload)
  }

  function EffectiveFromOriginalV3(e: EventV3, payload: CorrectableV3): EffectiveV3 {
    EffectiveV3(e.meta.sessionId, e.eventId, e.eventId, e.meta.recordedAt,
                e.occurredAt, e.timeBasis, e.uncertaintySeconds, e.slotId, payload)
  }

  function StepV3(p: PayloadV3): LifecycleStep
    requires IsLifecycleV3(p)
  {
    match p
    case SessionStarted(_) => Start
    case SessionInterrupted(_) => Interrupt
    case InterruptionDetected(_) => DetectInterruption
    case SessionResumed(_) => Resume
    case SessionEnded(_) => End
    case SessionAbandoned(_) => Abandon
  }

  function FactV3(e: EventV3): Fact<EffectiveV3> {
    var shape := ShapeErrorV3(e);
    if shape.Some? then Malformed(shape.value)
    else if IsLifecycleV3(e.payload) then Transition(StepV3(e.payload))
    else if IsOperationalV3(e.payload) then Operational
    else if e.payload.EventCorrected? then
      match e.payload.correction
      case Retract => Correction(e.payload.targetEventId, None)
      case Replace(r) => Correction(e.payload.targetEventId,
                                    Some(EffectiveFromReplacementV3(e.payload.targetEventId, e, r)))
    else Original(EffectiveFromOriginalV3(e, CorrectablePayloadV3(e.payload).value))
  }

  function EntryV3(e: EventV3): Entry<EffectiveV3> {
    Entry(e.eventId, FactV3(e))
  }

  function EntriesV3(events: seq<EventV3>): (log: seq<Entry<EffectiveV3>>)
    ensures |log| == |events|
    ensures forall i :: 0 <= i < |log| ==> log[i] == EntryV3(events[i])
  {
    seq(|events|, i requires 0 <= i < |events| => EntryV3(events[i]))
  }

  lemma TransitionsAgreeV3(current: Lifecycle, p: PayloadV3)
    requires IsLifecycleV3(p)
    ensures ApplyTransitionV3(current, p) ==
              match Next(current, StepV3(p))
              case Some(next) => Ok(next)
              case None => Err(TransitionFrom(current))
  {
  }
}
