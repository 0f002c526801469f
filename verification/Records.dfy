/** The record types the components share.  Instants are integer nanoseconds. */
module Records {
  import opened Prelude

  type Instant = int

  const SECOND: int := 1_000_000_000

  /** Whole seconds of a signed duration, truncated toward zero. */
  function NumSeconds(duration: int): int {
    if duration >= 0 then duration / SECOND else -((-duration) / SECOND)
  }

  datatype Band = M160 | M80 | M60 | M40 | M30 | M20 | M17 | M15 | M12 | M10 | M6 | M2

  datatype RecordSource =
    | Operator | WsjtxUdp | WsjtxLog | Wsprnet | WsprLive | ImportedFile | RigAdapter | NoaaSwpc | Derived

  datatype ObservationKind = LocalDecode | PublicReport | ImportedSpot

  datatype Provenance = Provenance(
    providerId: string, sourceId: string, acquisitionChannel: string, adapterId: string, adapterVersion: string)
  {
    function LegacySource(): RecordSource {
      if providerId == "antennabench" && sourceId == "operator-evidence" then Operator
      else if providerId == "wsjt-x" && acquisitionChannel == "udp" then WsjtxUdp
      else if providerId == "wsjt-x" && acquisitionChannel == "log-import" then WsjtxLog
      else if providerId == "wsprnet" then Wsprnet
      else if providerId == "wspr-live" then WsprLive
      else if providerId == "local-rig" then RigAdapter
      else if providerId == "noaa-swpc" then NoaaSwpc
      else if providerId == "antennabench" && sourceId == "derived" then Derived
      else ImportedFile
    }
  }

  datatype MutationMember = MutationMember(mutationId: string, memberIndex: nat, memberCount: nat)

  /** Metadata of schema-v2 and schema-v3 records. */
  datatype Meta = Meta(
    schemaVersion: nat, sessionId: string, recordedAt: Instant, provenance: Provenance,
    mutation: MutationMember, runtimeContextId: Option<string>)

  const SCHEMA_V2: nat := 2
  const SCHEMA_V3: nat := 3

  /** Metadata of records in the current analysis model. */
  datatype LegacyMeta = LegacyMeta(schemaVersion: nat, sessionId: string, timestamp: Instant, source: RecordSource)

  datatype LegacyEventType = SessionStarted | Switched | MissedSlot | BadSlot | NoteAdded | SessionEnded

  datatype LegacyEvent = LegacyEvent(
    meta: LegacyMeta, eventId: string, slotId: Option<string>, eventType: LegacyEventType,
    note: Option<string>, actualAntennaLabel: Option<string>)

  /** A float as its bits distinguish it: a real value and the sign of zero, or not finite. */
  datatype Float = Finite(value: real, negativeZero: bool) | NonFinite(payload: int)

  datatype Observation = Observation(
    observationId: string, timestamp: Instant, source: RecordSource, kind: ObservationKind, band: Band,
    mode: Option<string>, reporterCall: Option<string>, heardCall: Option<string>,
    reporterGrid: Option<string>, heardGrid: Option<string>,
    distanceKm: Option<Float>, azimuthDegrees: Option<Float>, snrDb: Option<Float>,
    slotId: Option<string>, slotLabel: Option<string>, slotConfidence: Option<real>)

  datatype ExperimentMode = WholeStationAb | TxFocused | RxFocused | SingleAntennaProfiling

  datatype PlannedSlot = PlannedSlot(
    slotId: string, sequenceNumber: nat, startsAt: Instant, durationSeconds: nat, guardSeconds: nat,
    band: Band, antennaLabel: string)

  function SlotEnd(slot: PlannedSlot): Instant {
    slot.startsAt + slot.durationSeconds * SECOND
  }

  datatype Schedule = Schedule(schemaVersion: nat, mode: ExperimentMode, slots: seq<PlannedSlot>)
}
