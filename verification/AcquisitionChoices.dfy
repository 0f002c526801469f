/** What each step of a call does, in terms of the plans, the records and the clock. */
module AcquisitionChoices {
  import opened Prelude
  import opened Records
  import opened EventLog
  import opened Acquisition

  // ----- what the records say -----

  /** The window counts as captured by this record: automatically, or by hand at least five minutes after its end. */
  predicate Captures(r: Record) {
    r.ImportSummary? && (r.channel == HttpsQuery || r.capturedAt - r.windowEnd >= 5 * 60 * SECOND)
  }

  /** Some capture reaches this instant. */
  ghost predicate CapturedTo(records: seq<Record>, at: Instant) {
    exists r :: r in records && Captures(r) && r.windowEnd >= at
  }

  /** The captured bound is the latest end of a captured window. */
  lemma {:induction false} ReachedIffCapturedTo(records: seq<Record>, at: Instant)
    ensures Reached(CapturedThrough(records), at) <==> CapturedTo(records, at)
    ensures CapturedThrough(records).Some? <==> exists r :: r in records && Captures(r)
    ensures CapturedThrough(records).Some? ==> CapturedTo(records, CapturedThrough(records).value)
  {
    if records != [] {
      var n := |records| - 1;
      ReachedIffCapturedTo(records[..n], at);
      assert records[n] in records && forall r :: r in records <==> r in records[..n] || r == records[n];
      var before := CapturedThrough(records[..n]);
      assert IsCapture(records[n]) <==> Captures(records[n]);
      if before.Some? {
        var r :| r in records[..n] && Captures(r) && r.windowEnd >= before.value;
      }
    }
  }

  /** Nothing was created exactly when no automatic capture says so. */
  lemma {:induction false} NothingCreated(records: seq<Record>)
    ensures Created(records) == 0 <==>
              forall r :: r in records && r.ImportSummary? && r.channel == HttpsQuery ==> r.created == 0
  {
    if records != [] {
      var n := |records| - 1;
      NothingCreated(records[..n]);
      assert forall r :: r in records <==> r in records[..n] || r == records[n];
    }
  }

  predicate AttemptAt(records: seq<Record>, windowEnd: Instant, i: nat) {
    i < |records| && records[i].ImportSummary? && records[i].channel == HttpsQuery && records[i].windowEnd == windowEnd
  }

  /** Attempts are counted by position. */
  lemma {:induction false} AttemptsByPosition(records: seq<Record>, windowEnd: Instant)
    ensures Attempts(records, windowEnd) == |set i: nat | i < |records| && AttemptAt(records, windowEnd, i)|
  {
    if records != [] {
      var n := |records| - 1;
      AttemptsByPosition(records[..n], windowEnd);
      var before := set i: nat | i < n && AttemptAt(records[..n], windowEnd, i);
      var after := set i: nat | i < |records| && AttemptAt(records, windowEnd, i);
      forall i: nat
        ensures i in after <==> i in before || (i == n && AttemptAt(records, windowEnd, n))
      {
      }
      assert after == if AttemptAt(records, windowEnd, n) then before + {n} else before;
    }
  }

  // ----- what a new call does -----

  /** The session that a call finds: the active one, readable, running, enabled and plannable. */
  ghost predicate Finds(planner: Planner, s: State, readable: bool, source: string) {
    && readable && s.active == Some(source) && source in s.sessions
    && s.sessions[source].lifecycle == Running && s.sessions[source].enabled
    && planner.plans(s.sessions[source].facts).Some?
  }

  ghost predicate PlannedBy(planner: Planner, session: Session, p: Plan) {
    planner.plans(session.facts).Some? && p in planner.plans(session.facts).value
  }

  ghost predicate IsDue(planner: Planner, session: Session, p: Plan, now: Instant) {
    PlannedBy(planner, session, p) && !CapturedTo(session.records, p.windowEnd) && p.notBefore <= now
  }

  /** No due plan ends later, nor as late with a greater slot id. */
  ghost predicate IsLatestDue(planner: Planner, session: Session, p: Plan, now: Instant) {
    && IsDue(planner, session, p, now)
    && forall q :: IsDue(planner, session, q, now) ==>
         q.segmentEndedAt < p.segmentEndedAt
         || (q.segmentEndedAt == p.segmentEndedAt && !IdLess(p.completedSlotId, q.completedSlotId))
  }

  /** At least ten seconds have passed since the last request for this session. */
  predicate IntervalPassed(r: Runtime, source: string, now: Instant) {
    r.source == Some(source) && r.lastRequest.Some? ==> now - r.lastRequest.value >= 10 * SECOND
  }

  /** A failure of this window is remembered for this session and no retry was asked for. */
  predicate FailureStands(r: Runtime, source: string, windowEnd: Instant, retry: bool) {
    r.source == Some(source) && r.failure.Some? && r.failure.value.windowEnd == windowEnd && !retry
  }

  lemma {:induction false} LatestDueIsLatest(pending: seq<Plan>, now: Instant)
    ensures LatestDue(pending, now).None? <==> forall q :: q in pending ==> q.notBefore > now
    ensures LatestDue(pending, now).Some? ==>
              var p := LatestDue(pending, now).value;
              && p in pending && p.notBefore <= now
              && forall q :: q in pending && q.notBefore <= now ==>
                   q.segmentEndedAt < p.segmentEndedAt
                   || (q.segmentEndedAt == p.segmentEndedAt && !IdLess(p.completedSlotId, q.completedSlotId))
  {
    if pending != [] {
      var n := |pending| - 1;
      LatestDueIsLatest(pending[..n], now);
      hide IdLess;
      assert forall q :: q in pending <==> q in pending[..n] || q == pending[n];
      var before, p := LatestDue(pending[..n], now), LatestDue(pending, now);
      if before.Some? && p == Some(pending[n]) {
        forall q | q in pending[..n] && q.notBefore <= now
          ensures q.segmentEndedAt < pending[n].segmentEndedAt
                  || (q.segmentEndedAt == pending[n].segmentEndedAt
                      && !IdLess(pending[n].completedSlotId, q.completedSlotId))
        {
          IdOrderIsTransitive(q.completedSlotId, before.value.completedSlotId, pending[n].completedSlotId);
        }
        IdsAreOrdered(pending[n].completedSlotId, pending[n].completedSlotId);
      } else if before.Some? {
        IdsAreOrdered(before.value.completedSlotId, pending[n].completedSlotId);
      } else {
        IdsAreOrdered(pending[n].completedSlotId, pending[n].completedSlotId);
      }
    }
  }

  lemma {:induction false} PendingIffUncaptured(plans: seq<Plan>, records: seq<Record>, p: Plan)
    ensures p in Pending(plans, CapturedThrough(records)) <==> p in plans && !CapturedTo(records, p.windowEnd)
  {
    ReachedIffCapturedTo(records, p.windowEnd);
  }

  /** Only a session that is active, readable, running, enabled and plannable makes a new call do anything. */
  lemma NothingFoundNothingDone(planner: Planner, s: State, w: nat, readable: bool, retry: bool, now: Instant)
    requires w < |s.calls| && s.calls[w].Idle? && s.holder.None?
    ensures (forall source :: !Finds(planner, s, readable, source)) ==> Begin(planner, s, w, readable, retry, now) == s
  {
    if s.active.Some? && forall source :: !Finds(planner, s, readable, source) {
      assert !Finds(planner, s, readable, s.active.value);
    }
    hide Pending, CapturedThrough, FinalCaptureIsComplete, LatestDue, RetryPlan, LastCaptured, Created;
  }

  /** What is remembered of another session is forgotten. */
  function RuntimeOf(r: Runtime, source: string): Runtime {
    if r.source == Some(source) then r else Runtime(Some(source), None, None)
  }

  /** The request as sent. */
  ghost predicate Sends(s: State, t: State, w: nat, source: string, p: Plan, retry: bool, now: Instant)
    requires w < |s.calls| && source in s.sessions
  {
    t == s.(runtime := Runtime(Some(source), Some(now), None), holder := None,
            calls := s.calls[w := Requested(Call(source, p, s.sessions[source].revision, s.sessions[source], retry,
                                                 now))])
  }

  /**
   While a window is not captured, a new call sends a request exactly if the interval has passed, some plan is due, and
   no failure of the latest one stands; it is then for a due plan that ends last.
   */
  lemma LatestDueIsRequested(planner: Planner, s: State, w: nat, readable: bool, retry: bool, now: Instant,
                             source: string)
    requires w < |s.calls| && s.calls[w].Idle? && s.holder.None? && Finds(planner, s, readable, source)
    requires exists p ::
               PlannedBy(planner, s.sessions[source], p) && !CapturedTo(s.sessions[source].records, p.windowEnd)
    ensures var t, session := Begin(planner, s, w, readable, retry, now), s.sessions[source];
            if t.calls[w].Requested? then
              var p := t.calls[w].call.plan;
              && Sends(s, t, w, source, p, false, now) && IsLatestDue(planner, session, p, now)
              && IntervalPassed(s.runtime, source, now) && !FailureStands(s.runtime, source, p.windowEnd, retry)
            else
              && t == s.(runtime := RuntimeOf(s.runtime, source))
              && (IntervalPassed(s.runtime, source, now) && (exists p :: IsDue(planner, session, p, now)) ==>
                    exists p :: IsLatestDue(planner, session, p, now)
                      && FailureStands(s.runtime, source, p.windowEnd, retry))
  {
    var session := s.sessions[source];
    var plans, through := planner.plans(session.facts).value, CapturedThrough(session.records);
    var pending := Pending(plans, through);
    forall p
      ensures p in pending <==> PlannedBy(planner, session, p) && !CapturedTo(session.records, p.windowEnd)
    {
      PendingIffUncaptured(plans, session.records, p);
    }
    LatestDueIsLatest(pending, now);
    hide Pending, CapturedThrough, CapturedTo, FinalCaptureIsComplete, LatestDue, LastCaptured, Created, Attempts,
         IdLess, RetryPlan;
    assert pending != [];
    var due := LatestDue(pending, now);
    assert due.Some? ==> IsLatestDue(planner, session, due.value, now);
  }

  lemma HasItsFirst(plans: seq<Plan>)
    ensures plans != [] ==> plans[0] in plans
  {
  }

  /** The last slot was completed and planned for, and the captured bound reaches its end. */
  ghost predicate FinallyCaptured(planner: Planner, session: Session) {
    var slots := planner.slots(session.facts);
    && slots != [] && planner.finalCompleted(session.facts) == Some(slots[|slots| - 1].slotId)
    && (exists p :: PlannedBy(planner, session, p) && p.completedSlotId == slots[|slots| - 1].slotId)
    && CapturedTo(session.records, slots[|slots| - 1].endsAt)
  }

  lemma FinallyCapturedIff(planner: Planner, session: Session)
    requires planner.plans(session.facts).Some?
    ensures var through := CapturedThrough(session.records);
            FinallyCaptured(planner, session) <==>
              through.Some?
              && FinalCaptureIsComplete(planner, session.facts, planner.plans(session.facts).value, through.value)
  {
    var slots := planner.slots(session.facts);
    if slots != [] {
      ReachedIffCapturedTo(session.records, slots[|slots| - 1].endsAt);
    }
    hide CapturedThrough, CapturedTo;
  }

  /**
   Once every window is captured a new call retries the last one, if that was asked for, the session is finally captured
   without any evidence and the window was attempted at most once; it goes on to end the session, if it is finally
   captured with evidence and no failure of the last window stands; and otherwise it does nothing.
   */
  lemma CapturedSessionsRetryOrEnd(planner: Planner, s: State, w: nat, readable: bool, retry: bool, now: Instant,
                                   source: string)
    requires w < |s.calls| && s.calls[w].Idle? && s.holder.None? && Finds(planner, s, readable, source)
    requires forall p :: PlannedBy(planner, s.sessions[source], p) ==>
               CapturedTo(s.sessions[source].records, p.windowEnd)
    ensures var t, session := Begin(planner, s, w, readable, retry, now), s.sessions[source];
            var plans := planner.plans(session.facts).value;
            if FinallyCaptured(planner, session) then
              && plans != [] && CapturedThrough(session.records).Some?
              && var last := plans[|plans| - 1];
              if retry && Created(session.records) == 0 && Attempts(session.records, last.windowEnd) < 2 then
                Sends(s, t, w, source, last, true, now)
              else if Created(session.records) > 0 && !FailureStands(s.runtime, source, last.windowEnd, retry) then
                t == s.(runtime := RuntimeOf(s.runtime, source), holder := Some(w),
                        calls := s.calls[w := Ending(source, last, CapturedThrough(session.records).value)])
              else t == s.(runtime := RuntimeOf(s.runtime, source))
            else t == s.(runtime := RuntimeOf(s.runtime, source))
  {
    var session := s.sessions[source];
    var plans, through := planner.plans(session.facts).value, CapturedThrough(session.records);
    var pending := Pending(plans, through);
    forall p
      ensures p !in pending
    {
      PendingIffUncaptured(plans, session.records, p);
    }
    HasItsFirst(pending);
    FinallyCapturedIff(planner, session);
    hide Pending, CapturedThrough, CapturedTo, FinallyCaptured, FinalCaptureIsComplete, LatestDue, Created, Attempts;
    if FinallyCaptured(planner, session) {
      FinalCaptureHasAPlan(planner, session.facts, plans, through.value);
    }
    hide LastCaptured;
  }

  // ----- what a response does -----

  /** The session may still take what was asked for. */
  ghost predicate Accepts(planner: Planner, s: State, readable: bool, source: string, revision: nat, p: Plan) {
    && readable && s.active == Some(source) && source in s.sessions
    && s.sessions[source].lifecycle == Running && s.sessions[source].enabled && s.sessions[source].revision >= revision
    && PlannedBy(planner, s.sessions[source], p)
  }

  /** A response that did not arrive is remembered as a failure; one that did is kept exactly if it may be taken. */
  lemma ResponsesAreTakenIff(planner: Planner, s: State, w: nat, arrived: bool, readable: bool)
    requires w < |s.calls| && s.calls[w].Requested? && s.holder.None?
    ensures var t, call := Respond(planner, s, w, arrived, readable), s.calls[w].call;
            if !arrived then
              && t.runtime == s.runtime.(failure := Some(Failure(call.plan.windowEnd, call.plan.completedSlotId)))
              && t == s.(runtime := t.runtime, holder := None, calls := s.calls[w := Idle])
            else if Accepts(planner, s, readable, call.source, call.revision, call.plan) then
              t == s.(holder := Some(w), calls := s.calls[w := Fetched(call, s.sessions[call.source].revision)])
            else t == s.(holder := None, calls := s.calls[w := Idle])
  {
  }

  /** The census is taken under the same conditions, against the revision seen with the spots. */
  lemma CensusIsTakenIff(planner: Planner, s: State, w: nat, readable: bool)
    requires w < |s.calls| && s.calls[w].Surveying? && s.holder.None?
    ensures var t, call, seen := Survey(planner, s, w, readable), s.calls[w].call, s.calls[w].seen;
            if Accepts(planner, s, readable, call.source, seen, call.plan) then
              var session := s.sessions[call.source];
              t == s.(holder := Some(w), calls := s.calls[w := Surveyed(call.(revision := seen), session.facts,
                                                                        planner.plans(session.facts).value)])
            else t == s.(holder := None, calls := s.calls[w := Idle])
  {
  }

  // ----- what a commit does -----

  ghost predicate MayWrite(s: State, source: string) {
    source in s.sessions && s.sessions[source].lifecycle == Running
  }

  /** The session gets one record more. */
  ghost predicate Writes(s: State, t: State, source: string, r: Record)
    requires source in s.sessions
  {
    var session := s.sessions[source];
    t.sessions == s.sessions[source := session.(revision := session.revision + 1, records := session.records + [r])]
  }

  /** Spots are written once, with what was created, or not at all, and any failure is remembered. */
  lemma SpotsAreWrittenIff(s: State, w: nat, saving: Saving, created: nat, capturedAt: Instant)
    requires w < |s.calls| && s.calls[w].Fetched?
    ensures var t, call := CommitSpots(s, w, saving, created, capturedAt), s.calls[w].call;
            var failed := s.runtime.(failure := Some(Failure(call.plan.windowEnd, call.plan.completedSlotId)));
            && (if MayWrite(s, call.source) && saving != Refused then
                  Writes(s, t, call.source, ImportSummary(HttpsQuery, call.plan.windowEnd, capturedAt, created))
                  && |t.log| == |s.log| + 1
                else t.sessions == s.sessions && t.log == s.log)
            && (if MayWrite(s, call.source) && saving == Saved then
                  t.runtime == s.runtime && t.calls == s.calls[w := Surveying(call, s.calls[w].seen)]
                else t.runtime == failed && t.calls == s.calls[w := Idle])
            && t.holder.None? && t.active == s.active
  {
  }

  /** The census is written if the session runs; in any case, but for a lost reload, the failure is forgotten. */
  lemma CensusIsWrittenIff(s: State, w: nat, saving: Saving)
    requires w < |s.calls| && s.calls[w].Surveyed?
    ensures var t, call := CommitCensus(s, w, saving), s.calls[w].call;
            && (if MayWrite(s, call.source) && saving != Refused then
                  Writes(s, t, call.source, CensusRecord(call.plan.windowEnd)) && |t.log| == |s.log| + 1
                else t.sessions == s.sessions && t.log == s.log)
            && (if MayWrite(s, call.source) && saving == SavedButNotReloaded then
                  t.runtime == s.runtime && t.calls == s.calls && t.holder == s.holder
                else
                  && t.runtime == s.runtime.(failure := None) && t.holder == Some(w)
                  && t.calls == s.calls[w := Concluding(call, s.calls[w].facts, s.calls[w].plans)])
            && t.active == s.active
  {
  }

  /** The call goes on to end the session exactly if the last window was its own and anything was ever created. */
  lemma CallsGoOnToEndIff(planner: Planner, s: State, w: nat, readable: bool)
    requires w < |s.calls| && s.calls[w].Concluding?
    ensures var t, Concluding(call, facts, plans) := Conclude(planner, s, w, readable), s.calls[w];
            var slots := planner.slots(facts);
            if readable && call.source in s.sessions
               && (exists r :: r in s.sessions[call.source].records && r.ImportSummary? && r.channel == HttpsQuery
                     && r.created > 0)
               && slots != [] && planner.finalCompleted(facts) == Some(slots[|slots| - 1].slotId)
               && (exists p :: p in plans && p.completedSlotId == slots[|slots| - 1].slotId)
               && slots[|slots| - 1].endsAt <= call.plan.windowEnd
            then t == s.(holder := Some(w), calls := s.calls[w := Ending(call.source, call.plan, call.plan.windowEnd)])
            else t == s.(holder := None, calls := s.calls[w := Idle])
  {
    var call := s.calls[w].call;
    if call.source in s.sessions {
      NothingCreated(s.sessions[call.source].records);
    }
    hide Created;
  }

  /** A running session is ended once; an ended one is left alone; any other is a failure, as is a lost reload. */
  lemma SessionsAreEndedIff(s: State, w: nat, saving: Saving)
    requires w < |s.calls| && s.calls[w].Ending?
    ensures var t, source, plan := Acquisition.End(s, w, saving), s.calls[w].source, s.calls[w].plan;
            && (if MayWrite(s, source) && saving != Refused then
                  var session := s.sessions[source];
                  t.sessions == s.sessions[source := session.(revision := session.revision + 1, lifecycle := Ended,
                                                              automaticEnds := session.automaticEnds + 1)]
                else t.sessions == s.sessions)
            && (if saving == Saved && source in s.sessions
                   && (s.sessions[source].lifecycle == Running || s.sessions[source].lifecycle == Ended)
                then t.runtime == s.runtime.(failure := None)
                else t.runtime == s.runtime.(failure := Some(Failure(plan.windowEnd, plan.completedSlotId))))
            && t.calls == s.calls[w := Idle] && t.holder.None? && t.active == s.active
  {
  }
}
