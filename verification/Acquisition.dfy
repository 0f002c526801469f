/**
 Automatic acquisition of public spots, as a state machine.

 Any number of calls advance the acquisition.  A call holds the foreground lock except while
 it waits for one of its two responses; while the lock is free the operator may do anything to
 any session, and the receiver thread may append evidence at any time.
 */
module Acquisition {
  import opened Prelude
  import opened Records
  import opened EventLog

  datatype Plan = Plan(
    completedSlotId: string, segmentEndedAt: Instant, notBefore: Instant,
    callsign: string, windowStart: Instant, windowEnd: Instant, bands: seq<Band>)

  datatype Channel = HttpsQuery | UserFile

  datatype Record =
    | ImportSummary(channel: Channel, windowEnd: Instant, capturedAt: Instant, created: nat)
    | CensusRecord(windowEnd: Instant)
    | OtherRecord

  /** The schedule and the operator events of a session, as a value that is only compared. */
  type Facts = int

  datatype Slot = Slot(slotId: string, endsAt: Instant)

  /** What the planning code derives from a session's facts; `None` is a planning error. */
  datatype Planner = Planner(
    plans: Facts -> Option<seq<Plan>>, slots: Facts -> seq<Slot>, finalCompleted: Facts -> Option<string>)

  datatype Session = Session(
    revision: nat, lifecycle: Lifecycle, enabled: bool, facts: Facts, records: seq<Record>, automaticEnds: nat)

  // ----- what the records say -----

  const MATURITY: int := 300 * SECOND
  const MIN_REQUEST_INTERVAL: int := 10 * SECOND

  predicate IsAutomatic(r: Record) {
    r.ImportSummary? && r.channel == HttpsQuery
  }

  /** An automatic capture, or a manual import taken late enough. */
  predicate IsCapture(r: Record) {
    r.ImportSummary? && (r.channel == HttpsQuery || r.capturedAt >= r.windowEnd + MATURITY)
  }

  function Later(a: Option<Instant>, at: Instant): Option<Instant> {
    if a.Some? && a.value >= at then a else Some(at)
  }

  function CapturedThrough(records: seq<Record>): Option<Instant> {
    if records == [] then None
    else
      var n := |records| - 1;
      var before := CapturedThrough(records[..n]);
      if IsCapture(records[n]) then Later(before, records[n].windowEnd) else before
  }

  function Created(records: seq<Record>): nat {
    if records == [] then 0
    else
      var n := |records| - 1;
      Created(records[..n]) + (if IsAutomatic(records[n]) then records[n].created else 0)
  }

  function Attempts(records: seq<Record>, windowEnd: Instant): nat {
    if records == [] then 0
    else
      var n := |records| - 1;
      var here := IsAutomatic(records[n]) && records[n].windowEnd == windowEnd;
      Attempts(records[..n], windowEnd) + (if here then 1 else 0)
  }

  predicate Reached(through: Option<Instant>, at: Instant) {
    through.Some? && through.value >= at
  }

  predicate IsPending(p: Plan, through: Option<Instant>) {
    !Reached(through, p.windowEnd)
  }

  function Pending(plans: seq<Plan>, through: Option<Instant>): (pending: seq<Plan>)
    ensures forall p :: p in pending <==> p in plans && IsPending(p, through)
  {
    if plans == [] then []
    else (if IsPending(plans[0], through) then [plans[0]] else []) + Pending(plans[1..], through)
  }

  /** The last authorized plan whose window is captured. */
  function LastCaptured(plans: seq<Plan>, through: Instant): (p: Option<Plan>)
    ensures p.Some? ==> p.value in plans && p.value.windowEnd <= through
    ensures p.None? ==> forall q :: q in plans ==> q.windowEnd > through
  {
    if plans == [] then None
    else
      var n := |plans| - 1;
      if plans[n].windowEnd <= through then Some(plans[n]) else LastCaptured(plans[..n], through)
  }

  predicate FinalCaptureIsComplete(planner: Planner, facts: Facts, plans: seq<Plan>, through: Instant) {
    var slots := planner.slots(facts);
    var completed := planner.finalCompleted(facts);
    && completed.Some? && slots != []
    && slots[|slots| - 1].slotId == completed.value
    && (exists p :: p in plans && p.completedSlotId == slots[|slots| - 1].slotId)
    && through >= slots[|slots| - 1].endsAt
  }

  /** Once nothing is pending, a complete final capture has a captured plan: the last one authorized. */
  lemma {:induction false} FinalCaptureHasAPlan(planner: Planner, facts: Facts, plans: seq<Plan>, through: Instant)
    requires Pending(plans, Some(through)) == [] && FinalCaptureIsComplete(planner, facts, plans, through)
    ensures plans != [] && LastCaptured(plans, through) == Some(plans[|plans| - 1])
  {
    var last := plans[|plans| - 1];
    assert last !in Pending(plans, Some(through));
    assert last in plans;
  }

  predicate DueBefore(a: Plan, b: Plan) {
    a.segmentEndedAt < b.segmentEndedAt
    || (a.segmentEndedAt == b.segmentEndedAt && !IdLess(b.completedSlotId, a.completedSlotId))
  }

  /** The due plan that ends last; the later one in the list if two are equal. */
  function LatestDue(pending: seq<Plan>, now: Instant): (p: Option<Plan>)
    ensures p.Some? ==> p.value in pending && p.value.notBefore <= now
  {
    if pending == [] then None
    else
      var n := |pending| - 1;
      var before := LatestDue(pending[..n], now);
      if pending[n].notBefore <= now && (before.None? || DueBefore(before.value, pending[n])) then Some(pending[n])
      else before
  }

  predicate IntervalAllows(last: Option<Instant>, now: Instant) {
    last.None? || now >= last.value + MIN_REQUEST_INTERVAL
  }

  // ----- calls -----

  /**
   A request in flight: where, for which plan, from which revision, for which session as it was read then, and whether
   it retries a captured window.
   */
  datatype Call = Call(source: string, plan: Plan, revision: nat, asked: Session, retry: bool, now: Instant)

  datatype Phase =
    | Idle
    | Requested(call: Call)
    | Fetched(call: Call, seen: nat)
    | Surveying(call: Call, seen: nat)
    | Surveyed(call: Call, facts: Facts, plans: seq<Plan>)
    | Concluding(call: Call, facts: Facts, plans: seq<Plan>)
    | Ending(source: string, plan: Plan, through: Instant)

  predicate Holds(p: Phase) {
    p.Fetched? || p.Surveyed? || p.Concluding? || p.Ending?
  }

  datatype Failure = Failure(windowEnd: Instant, completedSlotId: string)

  datatype Runtime = Runtime(source: Option<string>, lastRequest: Option<Instant>, failure: Option<Failure>)

  datatype Kind = Spots | Census | SessionEnd

  /** A commit, with what its request had read and what it found when it was made. */
  datatype Commit = Commit(
    kind: Kind, source: string, plan: Plan, requested: nat, asked: Option<Session>, retry: bool,
    active: Option<string>, before: Session)

  datatype State = State(
    active: Option<string>, sessions: map<string, Session>, holder: Option<nat>, calls: seq<Phase>,
    runtime: Runtime, log: seq<Commit>)

  function To(s: State, w: nat, p: Phase): State
    requires w < |s.calls|
  {
    s.(calls := s.calls[w := p], holder := if Holds(p) then Some(w) else None)
  }

  function Remember(s: State, p: Plan): State {
    s.(runtime := s.runtime.(failure := Some(Failure(p.windowEnd, p.completedSlotId))))
  }

  function Forget(s: State): State {
    s.(runtime := s.runtime.(failure := None))
  }

  predicate Failed(r: Runtime, p: Plan, retry: bool) {
    r.failure.Some? && r.failure.value.windowEnd == p.windowEnd && !retry
  }

  function ResetFor(r: Runtime, source: string): Runtime {
    if r.source != Some(source) then Runtime(Some(source), None, None) else r
  }

  /** A final window that produced nothing may be fetched once more on request. */
  function RetryPlan(planner: Planner, session: Session, plans: seq<Plan>, retry: bool): (p: Option<Plan>)
    ensures p.Some? ==>
              && p.value in plans && retry
              && Created(session.records) == 0 && Attempts(session.records, p.value.windowEnd) < 2
  {
    var through := CapturedThrough(session.records);
    if !retry || through.None? || !FinalCaptureIsComplete(planner, session.facts, plans, through.value) then None
    else
      var last := LastCaptured(plans, through.value);
      if last.Some? && Created(session.records) == 0 && Attempts(session.records, last.value.windowEnd) < 2
      then last
      else None
  }

  function Request(s: State, w: nat, source: string, plan: Plan, session: Session, retryPlan: bool, now: Instant): State
    requires w < |s.calls|
  {
    var s1 := s.(runtime := s.runtime.(lastRequest := Some(now), failure := None));
    To(s1, w, Requested(Call(source, plan, session.revision, session, retryPlan, now)))
  }

  /** From taking the lock to returning, sending the request, or ending a session that is already captured. */
  function Begin(planner: Planner, s: State, w: nat, readable: bool, retry: bool, now: Instant): State
    requires w < |s.calls| && s.calls[w].Idle? && s.holder.None?
  {
    if !readable || s.active.None? || s.active.value !in s.sessions then s
    else
      var source, session := s.active.value, s.sessions[s.active.value];
      if session.lifecycle != Running || !session.enabled || planner.plans(session.facts).None? then s
      else
        var plans, through := planner.plans(session.facts).value, CapturedThrough(session.records);
        var s1 := s.(runtime := ResetFor(s.runtime, source));
        var pending, again := Pending(plans, through), RetryPlan(planner, session, plans, retry);
        if pending == [] && again.None? then
          if through.Some? && FinalCaptureIsComplete(planner, session.facts, plans, through.value) then
            FinalCaptureHasAPlan(planner, session.facts, plans, through.value);
            var last := LastCaptured(plans, through.value).value;
            if Failed(s1.runtime, last, retry) || Created(session.records) == 0 then s1
            else To(s1, w, Ending(source, last, through.value))
          else s1
        else
          var due := if pending == [] then again
                     else if IntervalAllows(s1.runtime.lastRequest, now) then LatestDue(pending, now) else None;
          if due.None? || Failed(s1.runtime, due.value, retry) then s1
          else Request(s1, w, source, due.value, session, pending == [], now)
  }

  datatype Revalidated = Rejected | Discarded | Authorized(session: Session, plans: seq<Plan>)

  function Revalidate(planner: Planner, s: State, source: string, requested: nat, plan: Plan, readable: bool)
    : Revalidated
  {
    if s.active != Some(source) || source !in s.sessions || !readable then Rejected
    else
      var session := s.sessions[source];
      if session.lifecycle != Running || !session.enabled then Discarded
      else if session.revision < requested then Rejected
      else if planner.plans(session.facts).None? then Rejected
      else if plan !in planner.plans(session.facts).value then Discarded
      else Authorized(session, planner.plans(session.facts).value)
  }

  /** The spot response arrives, or fails, and the lock is taken again; the checkpoint is read if it is readable. */
  function Respond(planner: Planner, s: State, w: nat, arrived: bool, readable: bool): State
    requires w < |s.calls| && s.calls[w].Requested? && s.holder.None?
  {
    var call := s.calls[w].call;
    if !arrived then To(Remember(s, call.plan), w, Idle)
    else
      match Revalidate(planner, s, call.source, call.revision, call.plan, readable)
      case Authorized(session, _) => To(s, w, Fetched(call, session.revision))
      case _ => To(s, w, Idle)
  }

  function Append(s: State, source: string, session: Session, e: Commit): State {
    s.(sessions := s.sessions[source := session], log := s.log + [e])
  }

  function CommitOf(s: State, kind: Kind, call: Call, requested: nat): Commit
    requires call.source in s.sessions
  {
    Commit(kind, call.source, call.plan, requested, Some(call.asked), call.retry, s.active, s.sessions[call.source])
  }

  datatype Saving = Refused | Saved | SavedButNotReloaded

  /** The spots are written; a refused response or a failed reload is remembered as a failure. */
  function CommitSpots(s: State, w: nat, saving: Saving, created: nat, capturedAt: Instant): State
    requires w < |s.calls| && s.calls[w].Fetched?
  {
    var call, seen := s.calls[w].call, s.calls[w].seen;
    if saving == Refused || call.source !in s.sessions || s.sessions[call.source].lifecycle != Running then
      To(Remember(s, call.plan), w, Idle)
    else
      var session := s.sessions[call.source];
      var record := ImportSummary(HttpsQuery, call.plan.windowEnd, capturedAt, created);
      var s1 := Append(s, call.source,
                       session.(revision := session.revision + 1, records := session.records + [record]),
                       CommitOf(s, Spots, call, call.revision));
      if saving == Saved then To(s1, w, Surveying(call, seen)) else To(Remember(s1, call.plan), w, Idle)
  }

  /** The census response arrives, or fails, and the lock is taken again. */
  function Survey(planner: Planner, s: State, w: nat, readable: bool): State
    requires w < |s.calls| && s.calls[w].Surveying? && s.holder.None?
  {
    var call := s.calls[w].call;
    match Revalidate(planner, s, call.source, s.calls[w].seen, call.plan, readable)
    case Authorized(session, plans) => To(s, w, Surveyed(call.(revision := s.calls[w].seen), session.facts, plans))
    case _ => To(s, w, Idle)
  }

  /**
   The census is written if the session still runs.  A refused census, or one whose reload failed,
   is followed by an attempt to write a record of the failure: the same step once more.
   */
  function CommitCensus(s: State, w: nat, saving: Saving): State
    requires w < |s.calls| && s.calls[w].Surveyed?
  {
    var Surveyed(call, facts, plans) := s.calls[w];
    if saving == Refused || call.source !in s.sessions || s.sessions[call.source].lifecycle != Running then
      To(Forget(s), w, Concluding(call, facts, plans))
    else
      var session := s.sessions[call.source];
      var s1 := Append(s, call.source,
                       session.(revision := session.revision + 1,
                                records := session.records + [CensusRecord(call.plan.windowEnd)]),
                       CommitOf(s, Census, call, call.revision));
      if saving == Saved then To(Forget(s1), w, Concluding(call, facts, plans)) else s1
  }

  /** A complete final capture with evidence goes on to end the session, if the counts can be read again. */
  function Conclude(planner: Planner, s: State, w: nat, readable: bool): State
    requires w < |s.calls| && s.calls[w].Concluding?
  {
    var Concluding(call, facts, plans) := s.calls[w];
    if call.source in s.sessions && FinalCaptureIsComplete(planner, facts, plans, call.plan.windowEnd)
       && readable && Created(s.sessions[call.source].records) > 0
    then To(s, w, Ending(call.source, call.plan, call.plan.windowEnd))
    else To(s, w, Idle)
  }

  /** The automatic end: nothing to do if already ended, a failure unless running, otherwise one event. */
  function End(s: State, w: nat, saving: Saving): State
    requires w < |s.calls| && s.calls[w].Ending?
  {
    var source, plan := s.calls[w].source, s.calls[w].plan;
    if source !in s.sessions then To(Remember(s, plan), w, Idle)
    else
      var session := s.sessions[source];
      if session.lifecycle == Ended then To(if saving == Saved then Forget(s) else Remember(s, plan), w, Idle)
      else if session.lifecycle != Running || saving == Refused then To(Remember(s, plan), w, Idle)
      else
        var ended := session.(revision := session.revision + 1, lifecycle := Ended,
                              automaticEnds := session.automaticEnds + 1);
        var e := Commit(SessionEnd, source, plan, 0, None, false, s.active, session);
        var s1 := Append(s, source, ended, e);
        To(if saving == Saved then Forget(s1) else Remember(s1, plan), w, Idle)
  }
}
