/** How often a window is captured, and how far the captures reach. */
module AcquisitionWindows {
  import opened Prelude
  import opened Records
  import opened EventLog
  import opened Acquisition
  import opened AcquisitionSafety

  // ----- the bound never decreases -----

  lemma CallGrows(planner: Planner, s: State, t: State, w: nat)
    requires CallStep(planner, s, t, w)
    ensures Grows(s, t)
  {
    if t.sessions == s.sessions {
      SameSessionsGrow(s, t);
    } else {
      var source := if s.calls[w].Ending? then s.calls[w].source else s.calls[w].call.source;
      if s.calls[w].Fetched? {
        var saving, created, at :| t == CommitSpots(s, w, saving, created, at);
        OneSessionGrows(s, t, source, [ImportSummary(HttpsQuery, s.calls[w].call.plan.windowEnd, at, created)]);
      } else if s.calls[w].Surveyed? {
        OneSessionGrows(s, t, source, [CensusRecord(s.calls[w].call.plan.windowEnd)]);
      } else {
        assert t.sessions[source].records == s.sessions[source].records + [];
        OneSessionGrows(s, t, source, []);
      }
    }
  }

  lemma StepGrows(planner: Planner, s: State, t: State)
    requires Step(planner, s, t)
    ensures Grows(s, t)
  {
    hide OperatorStep, ReceiverStep, CallStep, Grows;
    if OperatorStep(s, t) {
      OperatorGrows(s, t);
    } else if ReceiverStep(s, t) {
      ReceiverGrows(s, t);
    } else {
      var w :| CallStep(planner, s, t, w);
      CallGrows(planner, s, t, w);
    }
  }

  /** In every run, whatever a session has captured through, it stays captured through. */
  lemma {:induction false} CapturedThroughNeverDecreases(planner: Planner, run: seq<State>, i: nat, j: nat, k: string,
                                                         at: Instant)
    requires IsRun(planner, run) && i <= j < |run|
    requires k in run[i].sessions && Reached(CapturedThrough(run[i].sessions[k].records), at)
    ensures k in run[j].sessions && Reached(CapturedThrough(run[j].sessions[k].records), at)
  {
    if i < j {
      CapturedThroughNeverDecreases(planner, run, i, j - 1, k, at);
      assert Step(planner, run[j - 1], run[j - 1 + 1]);
      StepGrows(planner, run[j - 1], run[j]);
      StillReached(run[j - 1], run[j], k, at);
    }
  }

  // ----- at most two captures of a window -----

  predicate InFlight(p: Phase) {
    p.Requested? || p.Fetched?
  }

  /** Two requests to one session for one window, or of which one is a retry. */
  predicate Collide(a: Call, b: Call) {
    a.source == b.source && (a.plan.windowEnd == b.plan.windowEnd || a.retry || b.retry)
  }

  /** No two calls wait for spots with colliding requests. */
  ghost predicate NoCollision(s: State) {
    forall v, w :: 0 <= v < w < |s.calls| && s.calls[v].Requested? && s.calls[w].Requested? ==>
                     !Collide(s.calls[v].call, s.calls[w].call)
  }

  /** No two calls that have yet to commit collide. */
  ghost predicate Apart(s: State) {
    forall v, w :: 0 <= v < w < |s.calls| && InFlight(s.calls[v]) && InFlight(s.calls[w]) ==>
                     !Collide(s.calls[v].call, s.calls[w].call)
  }

  /** A first capture of a window, or the second one of a session in which nothing was created. */
  predicate Fresh(call: Call, records: seq<Record>) {
    if call.retry then Attempts(records, call.plan.windowEnd) < 2 && Created(records) == 0
    else Attempts(records, call.plan.windowEnd) == 0
  }

  /**
   The session, as it was read, is completely captured with nothing created, and the plan is its last captured one.
   */
  ghost predicate FinalAndEmpty(planner: Planner, asked: Session, plan: Plan) {
    var through := CapturedThrough(asked.records);
    && planner.plans(asked.facts).Some? && through.Some?
    && FinalCaptureIsComplete(planner, asked.facts, planner.plans(asked.facts).value, through.value)
    && LastCaptured(planner.plans(asked.facts).value, through.value) == Some(plan)
    && (forall p :: p in planner.plans(asked.facts).value ==> !IsPending(p, through))
    && Created(asked.records) == 0
  }

  /** A call that has not yet committed still may, and a retry was asked for a final window without evidence. */
  ghost predicate FreshCall(planner: Planner, s: State, p: Phase) {
    InFlight(p) ==>
      && p.call.source in s.sessions && Fresh(p.call, s.sessions[p.call.source].records)
      && (p.call.retry ==> FinalAndEmpty(planner, p.call.asked, p.call.plan))
  }

  ghost predicate AtMostTwice(records: seq<Record>) {
    forall windowEnd :: Attempts(records, windowEnd) <= 2
  }

  /** A first capture, or an explicit retry of an all-zero final window captured at most once. */
  ghost predicate FirstOrRetry(planner: Planner, e: Commit) {
    var attempts := Attempts(e.before.records, e.plan.windowEnd);
    e.kind == Spots ==>
      if e.retry then
        && attempts < 2 && Created(e.before.records) == 0
        && e.asked.Some? && FinalAndEmpty(planner, e.asked.value, e.plan)
      else attempts == 0
  }

  ghost predicate Bounded(planner: Planner, s: State) {
    && Apart(s)
    && (forall w :: 0 <= w < |s.calls| ==> FreshCall(planner, s, s.calls[w]))
    && (forall k :: k in s.sessions ==> AtMostTwice(s.sessions[k].records))
    && (forall e :: e in s.log ==> FirstOrRetry(planner, e))
  }

  lemma {:induction false} NonAutomaticKeepsCounts(before: seq<Record>, after: seq<Record>)
    requires Extends(before, after)
    ensures Created(after) == Created(before)
    ensures forall windowEnd :: Attempts(after, windowEnd) == Attempts(before, windowEnd)
  {
    var more :| NoneAutomatic(more) && after == before + more;
    forall windowEnd
      ensures Attempts(after, windowEnd) == Attempts(before, windowEnd)
    {
      RecordsGrow(before, more, windowEnd);
    }
    RecordsGrow(before, more, 0);
  }

  /** Steps that only append other records keep the bound. */
  lemma OthersKeepBound(planner: Planner, s: State, t: State)
    requires Bounded(planner, s) && s.sessions.Keys <= t.sessions.Keys && t.calls == s.calls && t.log == s.log
    requires forall k :: k in s.sessions ==> Extends(s.sessions[k].records, t.sessions[k].records)
    requires forall k :: k in t.sessions && k !in s.sessions ==> MayOpen(t.sessions[k])
    ensures Bounded(planner, t)
  {
    hide Extends, FirstOrRetry, FinalAndEmpty, Collide;
    forall k | k in t.sessions
      ensures AtMostTwice(t.sessions[k].records)
    {
      if k in s.sessions {
        NonAutomaticKeepsCounts(s.sessions[k].records, t.sessions[k].records);
        assert AtMostTwice(s.sessions[k].records);
      } else {
        assert MayOpen(t.sessions[k]);
      }
    }
    forall w | 0 <= w < |t.calls|
      ensures FreshCall(planner, t, t.calls[w])
    {
      assert FreshCall(planner, s, s.calls[w]);
      if InFlight(s.calls[w]) {
        var k := s.calls[w].call.source;
        NonAutomaticKeepsCounts(s.sessions[k].records, t.sessions[k].records);
      }
    }
  }

  lemma OperatorKeepsBound(planner: Planner, s: State, t: State)
    requires Bounded(planner, s) && OperatorStep(s, t)
    ensures Bounded(planner, t)
  {
    forall k | k in s.sessions
      ensures Extends(s.sessions[k].records, t.sessions[k].records)
    {
      assert OperatorMay(s.sessions[k], t.sessions[k]);
    }
    hide Bounded, Extends, MayOpen;
    OthersKeepBound(planner, s, t);
  }

  lemma ReceiverKeepsBound(planner: Planner, s: State, t: State)
    requires Bounded(planner, s) && ReceiverStep(s, t)
    ensures Bounded(planner, t)
  {
    forall k | k in s.sessions
      ensures Extends(s.sessions[k].records, t.sessions[k].records)
    {
      assert ReceiverMay(s.sessions[k], t.sessions[k]);
    }
    hide Bounded, Extends, MayOpen;
    OthersKeepBound(planner, s, t);
  }

  /** A pending plan's window was never captured. */
  lemma {:induction false} PendingIsFresh(records: seq<Record>, plan: Plan)
    requires IsPending(plan, CapturedThrough(records))
    ensures Attempts(records, plan.windowEnd) == 0
  {
    CapturedMeansReached(records, plan.windowEnd);
  }

  /** Call `w` moves to a phase that is fresh and apart; records and log stay. */
  lemma QuietKeepsBound(planner: Planner, s: State, t: State, w: nat)
    requires Bounded(planner, s) && w < |s.calls| && t.log == s.log && t.sessions == s.sessions
    requires |t.calls| == |s.calls| && (forall v :: 0 <= v < |s.calls| && v != w ==> t.calls[v] == s.calls[v])
    requires FreshCall(planner, t, t.calls[w])
    requires Apart(t)
    ensures Bounded(planner, t)
  {
    hide FirstOrRetry, AtMostTwice, Fresh, FinalAndEmpty, Apart;
    forall v | 0 <= v < |t.calls|
      ensures FreshCall(planner, t, t.calls[v])
    {
      if v != w {
        assert FreshCall(planner, s, s.calls[v]);
      }
    }
  }

  /** A call that leaves flight, or stays in flight with the same request, stays apart from the others. */
  lemma StaysApart(s: State, t: State, w: nat)
    requires Apart(s) && w < |s.calls| && |t.calls| == |s.calls|
    requires forall v :: 0 <= v < |s.calls| && v != w ==> t.calls[v] == s.calls[v]
    requires InFlight(t.calls[w]) ==> InFlight(s.calls[w]) && t.calls[w].call == s.calls[w].call
    ensures Apart(t)
  {
    hide Collide;
  }

  /** While the lock is free every call in flight is still waiting. */
  lemma FreeMeansWaiting(planner: Planner, s: State)
    requires Inv(planner, s) && s.holder.None? && NoCollision(s)
    ensures Apart(s)
  {
    hide Collide, Relies, Guarded, EndedOnce;
  }

  lemma BeginKeepsBound(planner: Planner, s: State, w: nat, readable: bool, retry: bool, now: Instant)
    requires Bounded(planner, s) && Inv(planner, s) && w < |s.calls| && s.calls[w].Idle? && s.holder.None?
    requires NoCollision(Begin(planner, s, w, readable, retry, now))
    ensures Bounded(planner, Begin(planner, s, w, readable, retry, now))
  {
    var t := Begin(planner, s, w, readable, retry, now);
    BeginKeeps(planner, s, w, readable, retry, now);
    if t.calls[w].Requested? {
      var call := t.calls[w].call;
      RequestsAreAuthorized(planner, s, w, readable, retry, now);
      if !call.retry {
        PendingIsFresh(s.sessions[call.source].records, call.plan);
      }
      hide Inv, Attempts, Created, CapturedThrough, FinalCaptureIsComplete, Begin, NoCollision, LastCaptured;
      assert t.sessions == s.sessions && t.log == s.log && t.holder.None?;
      FreeMeansWaiting(planner, t);
      hide Bounded, Apart;
      QuietKeepsBound(planner, s, t, w);
    } else {
      hide Inv, Attempts, Created, CapturedThrough, FinalCaptureIsComplete, LatestDue, Pending, NoCollision,
           LastCaptured;
      StaysApart(s, t, w);
      hide Bounded, Apart;
      QuietKeepsBound(planner, s, t, w);
    }
  }

  lemma CommitSpotsKeepsBound(planner: Planner, s: State, w: nat, saving: Saving, created: nat, at: Instant)
    requires Bounded(planner, s) && w < |s.calls| && s.calls[w].Fetched?
    ensures Bounded(planner, CommitSpots(s, w, saving, created, at))
  {
    hide Attempts, Created, FinalAndEmpty, CapturedThrough;
    var t := CommitSpots(s, w, saving, created, at);
    var call := s.calls[w].call;
    assert FreshCall(planner, s, s.calls[w]);
    StaysApart(s, t, w);
    if t.sessions == s.sessions && t.log == s.log {
      QuietKeepsBound(planner, s, t, w);
    } else {
      var records := s.sessions[call.source].records;
      var record := ImportSummary(HttpsQuery, call.plan.windowEnd, at, created);
      CaptureKeepsBound(records, record, call);
      assert FirstOrRetry(planner, CommitOf(s, Spots, call, call.revision));
      forall v | 0 <= v < |t.calls|
        ensures FreshCall(planner, t, t.calls[v])
      {
        if v != w && InFlight(s.calls[v]) {
          assert FreshCall(planner, s, s.calls[v]);
          assert !Collide(call, s.calls[v].call) by { OthersApart(s, v, w); }
          AppendOne(records, record, s.calls[v].call.plan.windowEnd);
        }
      }
      hide FirstOrRetry, AtMostTwice, Fresh, FreshCall, Apart;
    }
  }

  lemma OthersApart(s: State, v: nat, w: nat)
    requires Apart(s) && v < |s.calls| && w < |s.calls| && v != w && InFlight(s.calls[v]) && InFlight(s.calls[w])
    ensures !Collide(s.calls[w].call, s.calls[v].call)
  {
    assert Collide(s.calls[w].call, s.calls[v].call) <==> Collide(s.calls[v].call, s.calls[w].call);
  }

  /** A fresh call's capture is at most the second of its window. */
  lemma CaptureKeepsBound(records: seq<Record>, record: Record, call: Call)
    requires AtMostTwice(records) && Fresh(call, records)
    requires record.ImportSummary? && record.windowEnd == call.plan.windowEnd
    ensures AtMostTwice(records + [record])
  {
    forall windowEnd
      ensures Attempts(records + [record], windowEnd) <= 2
    {
      AppendOne(records, record, windowEnd);
    }
    hide Attempts;
  }

  /** A step of call `w` that logs no capture and appends no automatic record keeps the bound. */
  lemma OtherCommitKeepsBound(planner: Planner, s: State, t: State, w: nat, source: string)
    requires Bounded(planner, s) && w < |s.calls| == |t.calls| && !InFlight(t.calls[w])
    requires source in s.sessions && source in t.sessions
    requires (forall v :: 0 <= v < |s.calls| && v != w ==> t.calls[v] == s.calls[v])
    requires t.sessions == s.sessions[source := t.sessions[source]]
    requires Extends(s.sessions[source].records, t.sessions[source].records)
    requires forall e :: e in t.log ==> e in s.log || e.kind != Spots
    ensures Bounded(planner, t)
  {
    hide Extends, FirstOrRetry, FinalAndEmpty;
    NonAutomaticKeepsCounts(s.sessions[source].records, t.sessions[source].records);
    StaysApart(s, t, w);
    hide Apart, Collide;
    assert AtMostTwice(s.sessions[source].records);
    forall v | 0 <= v < |t.calls|
      ensures FreshCall(planner, t, t.calls[v])
    {
      if v != w {
        assert FreshCall(planner, s, s.calls[v]);
      }
    }
    forall e | e in t.log
      ensures FirstOrRetry(planner, e)
    {
      if e !in s.log {
        NoCaptureIsFine(planner, e);
      }
    }
  }

  lemma NoCaptureIsFine(planner: Planner, e: Commit)
    requires e.kind != Spots
    ensures FirstOrRetry(planner, e)
  {
  }

  /** The census and the end append no automatic capture. */
  lemma CensusKeepsBound(planner: Planner, s: State, w: nat, saving: Saving)
    requires Bounded(planner, s) && w < |s.calls| && s.calls[w].Surveyed?
    ensures Bounded(planner, CommitCensus(s, w, saving))
  {
    var t := CommitCensus(s, w, saving);
    var call := s.calls[w].call;
    if t.sessions == s.sessions && t.log == s.log {
      StaysApart(s, t, w);
      hide Bounded, Apart;
      QuietKeepsBound(planner, s, t, w);
    } else {
      assert NoneAutomatic([CensusRecord(call.plan.windowEnd)]);
      assert Extends(s.sessions[call.source].records, t.sessions[call.source].records);
      hide Bounded, Extends;
      OtherCommitKeepsBound(planner, s, t, w, call.source);
    }
  }

  lemma EndKeepsBound(planner: Planner, s: State, w: nat, saving: Saving)
    requires Bounded(planner, s) && w < |s.calls| && s.calls[w].Ending?
    ensures Bounded(planner, Acquisition.End(s, w, saving))
  {
    var t := Acquisition.End(s, w, saving);
    var source := s.calls[w].source;
    if t.sessions == s.sessions && t.log == s.log {
      StaysApart(s, t, w);
      hide Bounded, Apart;
      QuietKeepsBound(planner, s, t, w);
    } else {
      assert NoneAutomatic([]);
      assert t.sessions[source].records == s.sessions[source].records + [];
      assert Extends(s.sessions[source].records, t.sessions[source].records);
      hide Bounded, Extends;
      OtherCommitKeepsBound(planner, s, t, w, source);
    }
  }

  /** Taking up a response, or letting one go, changes neither records nor log. */
  lemma WaitKeepsBound(planner: Planner, s: State, t: State, w: nat)
    requires Bounded(planner, s) && CallStep(planner, s, t, w)
    requires s.calls[w].Requested? || s.calls[w].Surveying? || s.calls[w].Concluding?
    ensures Bounded(planner, t)
  {
    hide Bounded, FinalCaptureIsComplete, Reached, CapturedThrough, Created;
    assert Apart(s) && FreshCall(planner, s, s.calls[w]) by { BoundedParts(planner, s, w); }
    hide Fresh, FinalAndEmpty;
    StaysApart(s, t, w);
    hide Apart;
    QuietKeepsBound(planner, s, t, w);
  }

  lemma BoundedParts(planner: Planner, s: State, w: nat)
    requires Bounded(planner, s) && w < |s.calls|
    ensures Apart(s) && FreshCall(planner, s, s.calls[w])
  {
  }

  lemma CallKeepsBound(planner: Planner, s: State, t: State, w: nat)
    requires Bounded(planner, s) && Inv(planner, s) && NoCollision(t) && CallStep(planner, s, t, w)
    ensures Bounded(planner, t)
  {
    hide Bounded, Begin, CommitSpots, CommitCensus, Acquisition.End, NoCollision, Inv;
    if s.calls[w].Idle? {
      var readable, retry, now :| t == Begin(planner, s, w, readable, retry, now);
      BeginKeepsBound(planner, s, w, readable, retry, now);
    } else if s.calls[w].Fetched? {
      var saving, created, at :| t == CommitSpots(s, w, saving, created, at);
      CommitSpotsKeepsBound(planner, s, w, saving, created, at);
    } else if s.calls[w].Surveyed? {
      var saving :| t == CommitCensus(s, w, saving);
      CensusKeepsBound(planner, s, w, saving);
    } else if s.calls[w].Ending? {
      var saving :| t == Acquisition.End(s, w, saving);
      EndKeepsBound(planner, s, w, saving);
    } else {
      hide CallStep;
      WaitKeepsBound(planner, s, t, w);
    }
  }

  lemma StepKeepsBound(planner: Planner, s: State, t: State)
    requires Bounded(planner, s) && Inv(planner, s) && NoCollision(t) && Step(planner, s, t)
    ensures Bounded(planner, t)
  {
    hide Bounded, OperatorStep, ReceiverStep, CallStep, NoCollision, Inv;
    if OperatorStep(s, t) {
      OperatorKeepsBound(planner, s, t);
    } else if ReceiverStep(s, t) {
      ReceiverKeepsBound(planner, s, t);
    } else {
      var w :| CallStep(planner, s, t, w);
      CallKeepsBound(planner, s, t, w);
    }
  }

  lemma InitBounded(planner: Planner, s: State)
    requires Init(s)
    ensures Bounded(planner, s)
  {
    forall k | k in s.sessions
      ensures AtMostTwice(s.sessions[k].records)
    {
      assert MayOpen(s.sessions[k]);
    }
  }

  lemma {:induction false} RunsStayBounded(planner: Planner, run: seq<State>, i: nat)
    requires IsRun(planner, run) && i < |run| && forall j :: 0 <= j < |run| ==> NoCollision(run[j])
    ensures Bounded(planner, run[i])
  {
    hide NoCollision, Bounded, Inv, Init, Step;
    if i == 0 {
      InitBounded(planner, run[0]);
    } else {
      RunsStayBounded(planner, run, i - 1);
      RunsAreSafe(planner, run, i - 1);
      assert Step(planner, run[i - 1], run[i - 1 + 1]);
      StepKeepsBound(planner, run[i - 1], run[i]);
    }
  }

  /**
   In every run in which no two waiting requests collide, no window is captured automatically more than twice, and
   the second capture is an explicit retry of the final window: when it was asked for, everything was captured and
   nothing created, and nothing was created since.
   */
  lemma WindowsAreCapturedAtMostTwice(planner: Planner, run: seq<State>, i: nat)
    requires IsRun(planner, run) && i < |run| && forall j :: 0 <= j < |run| ==> NoCollision(run[j])
    ensures forall k :: k in run[i].sessions ==> AtMostTwice(run[i].sessions[k].records)
    ensures forall e :: e in run[i].log && e.kind == Spots && Attempts(e.before.records, e.plan.windowEnd) > 0 ==>
                          && e.retry && Attempts(e.before.records, e.plan.windowEnd) == 1
                            && Created(e.before.records) == 0
                          && e.asked.Some? && FinalAndEmpty(planner, e.asked.value, e.plan)
  {
    RunsStayBounded(planner, run, i);
    hide IsRun, NoCollision, FinalAndEmpty, Attempts, Created;
  }

  // ----- colliding requests repeat a window -----

  /** The response arrives and its spots are saved. */
  lemma CapturesNow(planner: Planner, s: State, w: nat, created: nat)
    returns (t: State, u: State)
    requires s.holder.None? && w < |s.calls| && s.calls[w].Requested?
    requires Valid(planner, s, s.calls[w].call.source, s.calls[w].call.revision, s.calls[w].call.plan)
    ensures CallStep(planner, s, t, w) && CallStep(planner, t, u, w)
    ensures var call, session := s.calls[w].call, s.sessions[s.calls[w].call.source];
            var record := ImportSummary(HttpsQuery, call.plan.windowEnd, 0, created);
            && u.holder.None? && u.active == s.active
            && u.calls == s.calls[w := u.calls[w]]
            && u.sessions == s.sessions[call.source :=
                                          session.(revision := session.revision + 1,
                                                   records := session.records + [record])]
            && u.log == s.log + [CommitOf(s, Spots, call, call.revision)]
  {
    t := Respond(planner, s, w, true, true);
    u := CommitSpots(t, w, Saved, created, 0);
  }

  /** What waits may still be taken up: the session and the plan are as revalidation wants them. */
  ghost predicate Waits(planner: Planner, s: State, w: nat) {
    && w < |s.calls| && s.calls[w].Requested?
    && Valid(planner, s, s.calls[w].call.source, s.calls[w].call.revision, s.calls[w].call.plan)
  }

  /**
   Steps from the first to the last state, the last of which logs a capture that is neither a first one nor a fair
   retry.
   */
  ghost predicate Repeats(planner: Planner, run: seq<State>) {
    && |run| == 5
    && (forall i :: 0 <= i < 4 ==> Step(planner, run[i], run[i + 1]))
    && run[4].log != [] && !FirstOrRetry(planner, run[4].log[|run[4].log| - 1])
  }

  /** After a capture that created something, a retry is unfair, and another capture of its window is not the first. */
  lemma CaptureSpoils(planner: Planner, e: Commit, records: seq<Record>, windowEnd: Instant)
    requires e.kind == Spots && e.before.records == records + [ImportSummary(HttpsQuery, windowEnd, 0, 1)]
    requires e.retry || e.plan.windowEnd == windowEnd
    ensures !FirstOrRetry(planner, e)
  {
    AppendOne(records, ImportSummary(HttpsQuery, windowEnd, 0, 1), e.plan.windowEnd);
    hide Attempts, Created, FinalAndEmpty;
  }

  lemma FourCallSteps(planner: Planner, run: seq<State>, v: nat, w: nat)
    requires |run| == 5 && CallStep(planner, run[0], run[1], v) && CallStep(planner, run[1], run[2], v)
    requires CallStep(planner, run[2], run[3], w) && CallStep(planner, run[3], run[4], w)
    ensures forall i :: 0 <= i < 4 ==> Step(planner, run[i], run[i + 1])
  {
    hide CallStep, OperatorStep, ReceiverStep;
    forall i | 0 <= i < 4
      ensures Step(planner, run[i], run[i + 1])
    {
      assert CallStep(planner, run[i], run[i + 1], if i < 2 then v else w);
    }
  }

  lemma LastOfTwoRepeats(planner: Planner, s: State, first: nat, last: nat) returns (run: seq<State>)
    requires s.holder.None? && first != last && Waits(planner, s, first) && Waits(planner, s, last)
    requires s.calls[first].call.source == s.calls[last].call.source
    requires s.calls[last].call.retry || s.calls[first].call.plan.windowEnd == s.calls[last].call.plan.windowEnd
    ensures Repeats(planner, run) && run[0] == s
  {
    hide CallStep, FirstOrRetry, Step;
    var t1, t2 := CapturesNow(planner, s, first, 1);
    var t3, t4 := CapturesNow(planner, t2, last, 1);
    var a, b := s.calls[first].call, s.calls[last].call;
    CaptureSpoils(planner, CommitOf(t2, Spots, b, b.revision), s.sessions[a.source].records, a.plan.windowEnd);
    run := [s, t1, t2, t3, t4];
    FourCallSteps(planner, run, first, last);
  }

  /**
   Colliding requests that both may still be taken up can break the bound: four steps later the later commit is
   neither a first capture of its window nor a retry in a session without evidence.
   */
  lemma CollidingRequestsCanRepeat(planner: Planner, s: State, v: nat, w: nat) returns (run: seq<State>)
    requires s.holder.None? && v != w && Waits(planner, s, v) && Waits(planner, s, w)
    requires Collide(s.calls[v].call, s.calls[w].call)
    ensures Repeats(planner, run) && run[0] == s
  {
    hide Repeats, Valid;
    if s.calls[v].call.retry {
      run := LastOfTwoRepeats(planner, s, w, v);
    } else {
      run := LastOfTwoRepeats(planner, s, v, w);
    }
  }

  // ----- what a request rests on -----

  /**
   A request is sent only for an authorized plan of the running, enabled session: a due window not yet captured,
   no sooner than the minimum interval, or on request the last captured window once everything is captured and
   nothing was created.
   */
  lemma RequestsAreAuthorized(planner: Planner, s: State, w: nat, readable: bool, retry: bool, now: Instant)
    requires w < |s.calls| && s.calls[w].Idle? && s.holder.None?
    ensures var t := Begin(planner, s, w, readable, retry, now);
            t.calls[w].Requested? ==>
              var call := t.calls[w].call;
              && t.sessions == s.sessions && t.log == s.log
              && Valid(planner, s, call.source, call.revision, call.plan)
              && call.asked == s.sessions[call.source]
              && (!call.retry ==>
                    && IsPending(call.plan, CapturedThrough(call.asked.records)) && call.plan.notBefore <= now
                    && IntervalAllows(ResetFor(s.runtime, call.source).lastRequest, now))
              && (call.retry ==>
                    && retry && FinalAndEmpty(planner, call.asked, call.plan)
                    && Attempts(call.asked.records, call.plan.windowEnd) < 2)
  {
    hide CapturedThrough, Created, Attempts, FinalCaptureIsComplete, LatestDue, Pending, LastCaptured;
  }

  // ----- overlapping calls -----

  const PLAN: Plan := Plan("slot", 100, 0, "call", 0, 100, [M20])
  const PLANNER: Planner := Planner(facts => Some([PLAN]), facts => [Slot("slot", 100)], facts => None)
  const OPEN: Session := Session(0, Running, true, 0, [], 0)

  function At(records: seq<Record>, calls: seq<Phase>, runtime: Runtime, log: seq<Commit>, holder: Option<nat>): State {
    State(Some("session"), map["session" := OPEN.(records := records, revision := |records|)], holder, calls, runtime,
          log)
  }

  const LATER: Instant := MIN_REQUEST_INTERVAL
  const SPOTS: Record := ImportSummary(HttpsQuery, 100, 0, 0)
  const CALL_A: Call := Call("session", PLAN, 0, OPEN, false, 0)
  const CALL_B: Call := Call("session", PLAN, 0, OPEN, false, LATER)
  const AGAIN: Runtime := Runtime(Some("session"), Some(LATER), None)
  const FIRST: Commit := Commit(Spots, "session", PLAN, 0, Some(OPEN), false, Some("session"), OPEN)
  const SECOND: Commit := Commit(Spots, "session", PLAN, 0, Some(OPEN), false, Some("session"),
                                 OPEN.(records := [SPOTS], revision := 1))

  /** Two calls request the same window, then both commit it. */
  function Overlap(i: nat): State {
    if i == 0 then At([], [Idle, Idle], Runtime(None, None, None), [], None)
    else if i == 1 then At([], [Requested(CALL_A), Idle], Runtime(Some("session"), Some(0), None), [], None)
    else if i == 2 then At([], [Requested(CALL_A), Requested(CALL_B)], AGAIN, [], None)
    else if i == 3 then At([], [Fetched(CALL_A, 0), Requested(CALL_B)], AGAIN, [], Some(0))
    else if i == 4 then At([SPOTS], [Surveying(CALL_A, 0), Requested(CALL_B)], AGAIN, [FIRST], None)
    else if i == 5 then At([SPOTS], [Surveying(CALL_A, 0), Fetched(CALL_B, 1)], AGAIN, [FIRST], Some(1))
    else At([SPOTS, SPOTS], [Surveying(CALL_A, 0), Surveying(CALL_B, 1)], AGAIN, [FIRST, SECOND], None)
  }

  lemma OverlapRequests()
    ensures Init(Overlap(0)) && CallStep(PLANNER, Overlap(0), Overlap(1), 0)
              && CallStep(PLANNER, Overlap(1), Overlap(2), 1)
  {
    assert [PLAN][1..] == [] && [PLAN][..0] == [];
    assert LatestDue([PLAN], 0) == Some(PLAN) && LatestDue([PLAN], LATER) == Some(PLAN);
    assert Pending([PLAN], None) == [PLAN];
    assert Begin(PLANNER, Overlap(0), 0, true, false, 0) == Overlap(1);
    assert Begin(PLANNER, Overlap(1), 1, true, false, LATER) == Overlap(2);
  }

  lemma FirstCommit()
    ensures CallStep(PLANNER, Overlap(2), Overlap(3), 0) && CallStep(PLANNER, Overlap(3), Overlap(4), 0)
  {
    assert Respond(PLANNER, Overlap(2), 0, true, true) == Overlap(3);
    assert [] + [SPOTS] == [SPOTS] && [] + [FIRST] == [FIRST];
    assert CommitOf(Overlap(3), Spots, CALL_A, 0) == FIRST;
    assert CommitSpots(Overlap(3), 0, Saved, 0, 0).sessions == Overlap(4).sessions;
    assert CommitSpots(Overlap(3), 0, Saved, 0, 0) == Overlap(4);
  }

  lemma SecondCommit()
    ensures CallStep(PLANNER, Overlap(4), Overlap(5), 1) && CallStep(PLANNER, Overlap(5), Overlap(6), 1)
  {
    assert Respond(PLANNER, Overlap(4), 1, true, true) == Overlap(5);
    assert [SPOTS] + [SPOTS] == [SPOTS, SPOTS] && [FIRST] + [SECOND] == [FIRST, SECOND];
    assert CommitOf(Overlap(5), Spots, CALL_B, 0) == SECOND;
    assert CommitSpots(Overlap(5), 1, Saved, 0, 0).sessions == Overlap(6).sessions;
    assert CommitSpots(Overlap(5), 1, Saved, 0, 0) == Overlap(6);
  }

  lemma SecondRepeats()
    ensures SECOND in Overlap(6).log && SECOND.kind == Spots && !SECOND.retry
    ensures Attempts(SECOND.before.records, SECOND.plan.windowEnd) == 1
  {
    AppendOne([], SPOTS, 100);
    assert [] + [SPOTS] == [SPOTS];
    assert Overlap(6).log[1] == SECOND;
  }

  /** Colliding requests do occur: a run from the start in which two calls capture one window, neither as a retry. */
  lemma OverlappingCallsRepeatAWindow()
    ensures exists run: seq<State> :: IsRun(PLANNER, run) && run != [] &&
              exists e: Commit :: e in run[|run| - 1].log && e.kind == Spots && !e.retry
                && Attempts(e.before.records, e.plan.windowEnd) > 0
  {
    OverlapRequests();
    FirstCommit();
    SecondCommit();
    SecondRepeats();
    hide CallStep, Init, Attempts, OperatorStep, ReceiverStep, Overlap;
    var run := seq(7, i requires 0 <= i < 7 => Overlap(i));
    forall i | 0 <= i < |run| - 1
      ensures Step(PLANNER, run[i], run[i + 1])
    {
      assert CallStep(PLANNER, Overlap(i), Overlap(i + 1), if i == 0 || i == 2 || i == 3 then 0 else 1);
    }
    assert run[|run| - 1] == Overlap(6);
  }
}
