/** The guard that re-reduces a log before admitting one more schema-v2 event. */
module AppendGuard {
  import opened Prelude
  import opened EventTypes
  import opened EventLog
  import opened EventShapes
  import opened EventLogProperties
  import opened OperatorEvents

  datatype GuardMessage = DifferentSession | FromDiagnostic(message: Message) | NoEffectiveView

  datatype AppendError =
    | StaleRevision(expected: nat, actual: nat)
    | InvalidEvent(message: GuardMessage)

  ghost predicate SameSession(existing: seq<EventV2>, proposed: EventV2) {
    existing != [] ==> existing[0].meta.sessionId == proposed.meta.sessionId
  }

  /** The log admits the proposed event as its next one. */
  ghost predicate Admits(initial: Lifecycle, existing: seq<EventV2>, proposed: EventV2) {
    Accepted(initial, EntriesV2(existing + [proposed]), |existing|)
  }

  lemma AdmitsIffSilent(initial: Lifecycle, existing: seq<EventV2>, proposed: EventV2)
    ensures Admits(initial, existing, proposed) ==>
              MeaningV2(initial, existing + [proposed]).diagnostics == MeaningV2(initial, existing).diagnostics
    ensures !Admits(initial, existing, proposed) ==>
              exists d: Diagnostic ::
                d.eventId == proposed.eventId && MeaningV2(initial, existing + [proposed]).diagnostics ==
                                                           MeaningV2(initial, existing).diagnostics + [d]
  {
    hide Replay, Accepted, View;
    var log := EntriesV2(existing + [proposed]);
    assert log[..|existing|] == EntriesV2(existing);
    AcceptedIffSilent(initial, log, |existing|);
  }

  method ValidateOperatorEventAppendV2(initial: Lifecycle, currentRevision: nat, expectedRevision: nat,
                                       existing: seq<EventV2>, proposed: EventV2)
    returns (result: Result<ReductionV2, AppendError>)
    ensures currentRevision != expectedRevision ==>
              result == Err(StaleRevision(expectedRevision, currentRevision))
    ensures currentRevision == expectedRevision && !SameSession(existing, proposed) ==>
              result == Err(InvalidEvent(DifferentSession))
    ensures currentRevision == expectedRevision && SameSession(existing, proposed) ==>
              (result.Ok? <==> Admits(initial, existing, proposed))
    ensures result.Ok? ==>
              && result.value == MeaningV2(initial, existing + [proposed])
              && result.value.diagnostics == MeaningV2(initial, existing).diagnostics
    ensures currentRevision == expectedRevision && SameSession(existing, proposed) && result.Err? ==>
              var reported := MeaningV2(initial, existing + [proposed]).diagnostics;
              && reported != [] && reported[|reported| - 1].eventId == proposed.eventId
              && result.error == InvalidEvent(FromDiagnostic(reported[|reported| - 1].message))
  {
    hide MeaningV2, Admits;
    if currentRevision != expectedRevision {
      return Err(StaleRevision(expectedRevision, currentRevision));
    }
    if existing != [] && existing[0].meta.sessionId != proposed.meta.sessionId {
      return Err(InvalidEvent(DifferentSession));
    }
    var baseline := ReduceOperatorEventsV2(initial, existing);
    var reduction := ReduceOperatorEventsV2(initial, existing + [proposed]);
    AdmitsIffSilent(initial, existing, proposed);
    if |reduction.diagnostics| != |baseline.diagnostics| {
      var message := if reduction.diagnostics == [] then NoEffectiveView
                     else FromDiagnostic(reduction.diagnostics[|reduction.diagnostics| - 1].message);
      return Err(InvalidEvent(message));
    }
    return Ok(reduction);
  }

  /** Logs grown from nothing by appends that the guard let through. */
  ghost predicate Guarded(initial: Lifecycle, events: seq<EventV2>) {
    events != [] ==>
      var n := |events| - 1;
      && Guarded(initial, events[..n])
      && SameSession(events[..n], events[n])
      && Admits(initial, events[..n], events[n])
  }

  ghost predicate OneSession(events: seq<EventV2>) {
    forall i :: 0 <= i < |events| ==> events[i].meta.sessionId == events[0].meta.sessionId
  }

  /** The guard lets a log grow exactly when it is one session's log without diagnostics. */
  lemma {:induction false} GuardedIffClean(initial: Lifecycle, events: seq<EventV2>)
    ensures Guarded(initial, events) <==> MeaningV2(initial, events).diagnostics == [] && OneSession(events)
  {
    if events != [] {
      hide MeaningV2, Admits, OneSession;
      var before, last := events[..|events| - 1], events[|events| - 1];
      GuardedIffClean(initial, before);
      AdmitsIffSilent(initial, before, last);
      SplitLast(events);
      OneSessionGrows(before, last);
    } else {
      assert MeaningV2(initial, []).diagnostics == [];
    }
  }

  lemma OneSessionGrows(before: seq<EventV2>, last: EventV2)
    ensures OneSession(before + [last]) <==> OneSession(before) && SameSession(before, last)
  {
    var events := before + [last];
    assert forall i :: 0 <= i < |before| ==> events[i] == before[i];
    assert events[|before|] == last;
  }

  /** Distinct ids and backward correction targets are what the guard buys. */
  lemma {:induction false} GuardedLogsAreWellFormed(initial: Lifecycle, events: seq<EventV2>)
    requires Guarded(initial, events)
    ensures forall j, k :: 0 <= j < k < |events| ==> events[j].eventId != events[k].eventId
    ensures forall k :: 0 <= k < |events| && events[k].payload.EventCorrected? ==>
              exists t :: 0 <= t < k && events[t].eventId == events[k].payload.targetEventId
                          && CorrectablePayloadV2(events[t].payload).Some?
  {
    GuardedIffClean(initial, events);
    hide Replay, View, Guarded;
    var log := EntriesV2(events);
    CleanLogsAreWellFormed(initial, log);
    CleanIffAllAccepted(initial, log);
    forall j, k | 0 <= j < k < |events|
      ensures events[j].eventId != events[k].eventId
    {
      assert log[j].id != log[k].id;
    }
    forall k | 0 <= k < |events| && events[k].payload.EventCorrected?
      ensures exists t :: 0 <= t < k && events[t].eventId == events[k].payload.targetEventId
                          && CorrectablePayloadV2(events[t].payload).Some?
    {
      assert Accepted(initial, log, k);
      assert log[k].fact.Correction?;
      var t :| 0 <= t < k && log[t].id == log[k].fact.target && log[t].fact.Original?;
      PlainEventsAreCorrectableV2(events[t].payload);
    }
  }

  /** Appending to an ended or abandoned session changes nothing and reports every event. */
  lemma EndedSessionsAreFinal(initial: Lifecycle, events: seq<EventV2>, more: seq<EventV2>)
    requires IsTerminal(MeaningV2(initial, events).lifecycle)
    ensures var was, now := MeaningV2(initial, events), MeaningV2(initial, events + more);
            && now.lifecycle == was.lifecycle
            && now.effectiveEvents == was.effectiveEvents
            && |now.diagnostics| == |was.diagnostics| + |more|
  {
    hide Replay, View;
    assert EntriesV2(events + more) == EntriesV2(events) + EntriesV2(more);
    TerminalIsFinal(initial, EntriesV2(events), EntriesV2(more));
  }
}
