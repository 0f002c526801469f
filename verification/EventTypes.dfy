/** Operator events of schema v2 and schema v3. */
module EventTypes {
  import opened Prelude
  import opened Records

  datatype TimeBasis = ObservedNow | OperatorReported | RecoverySystem

  // ----- schema v2 -----

  datatype CorrectableV2 =
    | AntennaStateConfirmed(antennaLabel: string, note: Option<string>)
    | SlotMissed(missedReason: Option<string>)
    | SlotBad(badReason: string)
    | NoteAdded(text: string)

  datatype ReplacementV2 = ReplacementV2(
    occurredAt: Instant, timeBasis: TimeBasis, uncertaintySeconds: Option<nat>,
    slotId: Option<string>, payload: CorrectableV2)

  datatype CorrectionV2 = Retract | Replace(replacement: ReplacementV2)

  datatype PayloadV2 =
    | SessionStarted(note: Option<string>)
    | SessionInterrupted(reason: Option<string>)
    | InterruptionDetected(reason: Option<string>)
    | SessionResumed(note: Option<string>)
    | SessionEnded(reason: Option<string>)
    | SessionAbandoned(reason: Option<string>)
    | AntennaStateConfirmed(antennaLabel: string, note: Option<string>)
    | SlotMissed(reason: Option<string>)
    | SlotBad(badReason: string)
    | NoteAdded(text: string)
    | EventCorrected(targetEventId: string, correction: CorrectionV2, why: string)

  datatype EventV2 = EventV2(
    meta: Meta, eventId: string, occurredAt: Instant, timeBasis: TimeBasis,
    uncertaintySeconds: Option<nat>, slotId: Option<string>, payload: PayloadV2)

  datatype EffectiveV2 = EffectiveV2(
    sessionId: string, sourceEventId: string, effectiveThroughEventId: string, recordedAt: Instant,
    occurredAt: Instant, timeBasis: TimeBasis, uncertaintySeconds: Option<nat>,
    slotId: Option<string>, payload: CorrectableV2)

  // ----- schema v3 -----

  datatype SignalMode = Cw | Rtty

  datatype SignalConfirmation = SignalConfirmation(
    frequencyHz: Option<nat>, mode: Option<SignalMode>, powerWatts: Option<real>,
    transmittedCallsign: Option<string>, cadenceFollowed: Option<bool>, note: Option<string>)

  datatype CorrectableV3 =
    | AntennaStateConfirmed(antennaLabel: string, note: Option<string>)
    | SignalStateConfirmed(confirmation: SignalConfirmation)
    | SlotMissed(missedReason: Option<string>)
    | SlotBad(badReason: string)
    | NoteAdded(text: string)

  datatype ReplacementV3 = ReplacementV3(
    occurredAt: Instant, timeBasis: TimeBasis, uncertaintySeconds: Option<nat>,
    slotId: Option<string>, payload: CorrectableV3)

  datatype CorrectionV3 = Retract | Replace(replacement: ReplacementV3)

  datatype PayloadV3 =
    | SessionStarted(note: Option<string>)
    | SessionInterrupted(reason: Option<string>)
    | InterruptionDetected(reason: Option<string>)
    | SessionResumed(note: Option<string>)
    | SessionEnded(reason: Option<string>)
    | SessionAbandoned(reason: Option<string>)
    | AntennaSwitchStarted(note: Option<string>)
    | WsprCycleArmed(antennaLabel: string, cycleStartsAt: Instant, readiness: Option<string>)
    | AntennaStateConfirmed(antennaLabel: string, note: Option<string>)
    | SignalStateConfirmed(confirmation: SignalConfirmation)
    | SlotMissed(reason: Option<string>)
    | SlotBad(badReason: string)
    | NoteAdded(text: string)
    | EventCorrected(targetEventId: string, correction: CorrectionV3, why: string)

  datatype EventV3 = EventV3(
    meta: Meta, eventId: string, occurredAt: Instant, timeBasis: TimeBasis,
    uncertaintySeconds: Option<nat>, slotId: Option<string>, payload: PayloadV3)

  datatype EffectiveV3 = EffectiveV3(
    sessionId: string, sourceEventId: string, effectiveThroughEventId: string, recordedAt: Instant,
    occurredAt: Instant, timeBasis: TimeBasis, uncertaintySeconds: Option<nat>,
    slotId: Option<string>, payload: CorrectableV3)
}
