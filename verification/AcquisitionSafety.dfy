/** What every run of the acquisition keeps, whatever the operator and the receiver do meanwhile. */
module AcquisitionSafety {
  import opened Prelude
  import opened Records
  import opened EventLog
  import opened Acquisition

  // ----- steps and runs -----

  /** No automatic capture among these records. */
  predicate NoneAutomatic(records: seq<Record>) {
    forall r :: r in records ==> !IsAutomatic(r)
  }

  ghost predicate Extends(before: seq<Record>, after: seq<Record>) {
    exists more :: NoneAutomatic(more) && after == before + more
  }

  /** The operator may do anything except revive a finished session, unwrite records, or write automatic ones. */
  ghost predicate OperatorMay(before: Session, after: Session) {
    && (IsTerminal(before.lifecycle) ==> after.lifecycle == before.lifecycle)
    && after.automaticEnds == before.automaticEnds
    && Extends(before.records, after.records)
  }

  /** The receiver writes evidence and advances the revision. */
  ghost predicate ReceiverMay(before: Session, after: Session) {
    && after == before.(revision := after.revision, records := after.records)
    && before.revision <= after.revision && Extends(before.records, after.records)
  }

  /** A session not seen before: nothing has ended it automatically, and no window was captured more than twice. */
  ghost predicate MayOpen(session: Session) {
    session.automaticEnds == 0 && forall w :: Attempts(session.records, w) <= 2
  }

  ghost predicate OperatorStep(s: State, t: State) {
    && s.holder.None?
    && t == s.(active := t.active, sessions := t.sessions)
    && s.sessions.Keys <= t.sessions.Keys
    && (forall k :: k in s.sessions ==> OperatorMay(s.sessions[k], t.sessions[k]))
    && (forall k :: k in t.sessions && k !in s.sessions ==> MayOpen(t.sessions[k]))
  }

  ghost predicate ReceiverStep(s: State, t: State) {
    && t == s.(sessions := t.sessions)
    && t.sessions.Keys == s.sessions.Keys
    && (forall k :: k in s.sessions ==> ReceiverMay(s.sessions[k], t.sessions[k]))
  }

  /** One step of call `w`; a new response is only taken up while the foreground lock is free. */
  ghost predicate CallStep(planner: Planner, s: State, t: State, w: nat) {
    && w < |s.calls|
    && match s.calls[w]
       case Idle => s.holder.None? && exists readable, retry, now :: t == Begin(planner, s, w, readable, retry, now)
       case Requested(_) => s.holder.None? && exists arrived, readable :: t == Respond(planner, s, w, arrived, readable)
       case Fetched(_, _) => exists saving, created, at :: t == CommitSpots(s, w, saving, created, at)
       case Surveying(_, _) => s.holder.None? && exists readable :: t == Survey(planner, s, w, readable)
       case Surveyed(_, _, _) => exists saving :: t == CommitCensus(s, w, saving)
       case Concluding(_, _, _) => exists readable :: t == Conclude(planner, s, w, readable)
       case Ending(_, _, _) => exists saving :: t == Acquisition.End(s, w, saving)
  }

  ghost predicate Step(planner: Planner, s: State, t: State) {
    OperatorStep(s, t) || ReceiverStep(s, t) || exists w :: CallStep(planner, s, t, w)
  }

  ghost predicate Init(s: State) {
    && s.holder.None? && s.log == []
    && (forall w :: 0 <= w < |s.calls| ==> s.calls[w].Idle?)
    && (forall k :: k in s.sessions ==> MayOpen(s.sessions[k]))
  }

  ghost predicate IsRun(planner: Planner, run: seq<State>) {
    && run != [] && Init(run[0])
    && forall i :: 0 <= i < |run| - 1 ==> Step(planner, run[i], run[i + 1])
  }

  // ----- records only grow -----

  lemma {:induction false} RecordsGrow(records: seq<Record>, more: seq<Record>, windowEnd: Instant)
    ensures Created(records) <= Created(records + more)
    ensures Attempts(records, windowEnd) <= Attempts(records + more, windowEnd)
    ensures forall at :: Reached(CapturedThrough(records), at) ==> Reached(CapturedThrough(records + more), at)
    ensures NoneAutomatic(more) ==>
              Created(records + more) == Created(records)
                && Attempts(records + more, windowEnd) == Attempts(records, windowEnd)
  {
    if more == [] {
      assert records + more == records;
    } else {
      var n := |more| - 1;
      RecordsGrow(records, more[..n], windowEnd);
      assert (records + more)[..|records| + n] == records + more[..n];
      assert more[n] in more;
      hide IsCapture, IsAutomatic;
    }
  }

  lemma {:induction false} CapturedMeansReached(records: seq<Record>, windowEnd: Instant)
    ensures Attempts(records, windowEnd) > 0 ==> Reached(CapturedThrough(records), windowEnd)
  {
    if records != [] {
      CapturedMeansReached(records[..|records| - 1], windowEnd);
    }
  }

  lemma {:induction false} AppendOne(records: seq<Record>, r: Record, windowEnd: Instant)
    ensures Created(records + [r]) == Created(records) + (if IsAutomatic(r) then r.created else 0)
    ensures Attempts(records + [r], windowEnd) ==
              Attempts(records, windowEnd) + (if IsAutomatic(r) && r.windowEnd == windowEnd then 1 else 0)
    ensures CapturedThrough(records + [r]) ==
              if IsCapture(r) then Later(CapturedThrough(records), r.windowEnd) else CapturedThrough(records)
  {
    assert (records + [r])[..|records|] == records;
  }

  // ----- the guard of every commit -----

  /** What the program promises about the session it commits evidence to, and about ending it. */
  ghost predicate Guarded(planner: Planner, e: Commit) {
    && e.active == Some(e.source)
    && e.before.lifecycle == Running
    && (e.kind != SessionEnd ==>
          && e.before.enabled && e.before.revision >= e.requested
          && planner.plans(e.before.facts).Some? && e.plan in planner.plans(e.before.facts).value)
    && (e.kind == SessionEnd ==>
          && e.before.automaticEnds == 0 && Finished(planner, e.before))
  }

  /** The final capture is complete and produced evidence. */
  ghost predicate Finished(planner: Planner, session: Session) {
    && Created(session.records) > 0
    && planner.plans(session.facts).Some?
    && exists through :: Reached(CapturedThrough(session.records), through)
                         && FinalCaptureIsComplete(planner, session.facts, planner.plans(session.facts).value, through)
  }

  /** What a call relies on while it holds the lock. */
  ghost predicate Relies(planner: Planner, s: State, p: Phase) {
    match p
    case Fetched(call, seen) => Valid(planner, s, call.source, call.revision, call.plan)
    case Surveyed(call, facts, plans) =>
      && Valid(planner, s, call.source, call.revision, call.plan)
      && s.sessions[call.source].facts == facts && planner.plans(facts).value == plans
      && Reached(CapturedThrough(s.sessions[call.source].records), call.plan.windowEnd)
    case Concluding(call, facts, plans) =>
      && s.active == Some(call.source) && call.source in s.sessions
      && s.sessions[call.source].facts == facts && planner.plans(facts) == Some(plans)
      && Reached(CapturedThrough(s.sessions[call.source].records), call.plan.windowEnd)
    case Ending(source, plan, through) =>
      && s.active == Some(source) && source in s.sessions
      && Finished(planner, s.sessions[source])
    case Surveying(call, seen) =>
      call.source in s.sessions && Reached(CapturedThrough(s.sessions[call.source].records), call.plan.windowEnd)
    case _ => true
  }

  /** The session is still the active one, running, enabled, not behind, and the plan is still authorized. */
  ghost predicate Valid(planner: Planner, s: State, source: string, requested: nat, plan: Plan) {
    && s.active == Some(source) && source in s.sessions
    && s.sessions[source].lifecycle == Running && s.sessions[source].enabled && s.sessions[source].revision >= requested
    && planner.plans(s.sessions[source].facts).Some? && plan in planner.plans(s.sessions[source].facts).value
  }

  ghost predicate EndedOnce(session: Session) {
    session.automaticEnds <= 1 && (session.automaticEnds == 1 ==> session.lifecycle == Ended)
  }

  ghost predicate Inv(planner: Planner, s: State) {
    && (forall w :: 0 <= w < |s.calls| ==> (Acquisition.Holds(s.calls[w]) <==> s.holder == Some(w)))
    && (forall w :: 0 <= w < |s.calls| ==> Relies(planner, s, s.calls[w]))
    && (forall k :: k in s.sessions ==> EndedOnce(s.sessions[k]))
    && (forall e :: e in s.log ==> Guarded(planner, e))
  }

  // ----- every step keeps the invariant -----

  /** Records are only ever appended, and no session disappears. */
  ghost predicate Grows(s: State, t: State) {
    && s.sessions.Keys <= t.sessions.Keys
    && forall k :: k in s.sessions ==> exists more :: t.sessions[k].records == s.sessions[k].records + more
  }

  lemma StillReached(s: State, t: State, k: string, at: Instant)
    requires Grows(s, t) && k in s.sessions && Reached(CapturedThrough(s.sessions[k].records), at)
    ensures Reached(CapturedThrough(t.sessions[k].records), at)
  {
    var more :| t.sessions[k].records == s.sessions[k].records + more;
    RecordsGrow(s.sessions[k].records, more, 0);
  }

  lemma WaitersRely(planner: Planner, s: State, t: State, p: Phase)
    requires Grows(s, t) && !Acquisition.Holds(p) && Relies(planner, s, p)
    ensures Relies(planner, t, p)
  {
    if p.Surveying? {
      StillReached(s, t, p.call.source, p.call.plan.windowEnd);
    }
  }

  lemma OperatorGrows(s: State, t: State)
    requires OperatorStep(s, t)
    ensures Grows(s, t)
  {
    forall k | k in s.sessions
      ensures exists more :: t.sessions[k].records == s.sessions[k].records + more
    {
      assert OperatorMay(s.sessions[k], t.sessions[k]);
    }
  }

  lemma ReceiverGrows(s: State, t: State)
    requires ReceiverStep(s, t)
    ensures Grows(s, t)
  {
    forall k | k in s.sessions
      ensures exists more :: t.sessions[k].records == s.sessions[k].records + more
    {
      assert ReceiverMay(s.sessions[k], t.sessions[k]);
    }
  }

  lemma OperatorKeeps(planner: Planner, s: State, t: State)
    requires Inv(planner, s) && OperatorStep(s, t)
    ensures Inv(planner, t)
  {
    OperatorGrows(s, t);
    forall w | 0 <= w < |t.calls|
      ensures Relies(planner, t, t.calls[w])
    {
      WaitersRely(planner, s, t, s.calls[w]);
    }
    forall k | k in t.sessions
      ensures EndedOnce(t.sessions[k])
    {
      if k in s.sessions {
        assert EndedOnce(s.sessions[k]) && OperatorMay(s.sessions[k], t.sessions[k]);
      } else {
        assert MayOpen(t.sessions[k]);
      }
    }
    hide Relies, Guarded, EndedOnce;
  }

  lemma ReceiverKeepsOne(planner: Planner, s: State, t: State, p: Phase)
    requires ReceiverStep(s, t) && Relies(planner, s, p)
    ensures Relies(planner, t, p)
  {
    ReceiverGrows(s, t);
    if p.Surveyed? || p.Concluding? {
      StillReached(s, t, p.call.source, p.call.plan.windowEnd);
      assert ReceiverMay(s.sessions[p.call.source], t.sessions[p.call.source]);
    } else if p.Fetched? {
      assert ReceiverMay(s.sessions[p.call.source], t.sessions[p.call.source]);
    } else if p.Ending? {
      assert ReceiverMay(s.sessions[p.source], t.sessions[p.source]);
      StillFinished(planner, s.sessions[p.source], t.sessions[p.source]);
    } else {
      WaitersRely(planner, s, t, p);
    }
  }

  lemma StillFinished(planner: Planner, before: Session, after: Session)
    requires ReceiverMay(before, after) && Finished(planner, before)
    ensures Finished(planner, after)
  {
    hide FinalCaptureIsComplete, Reached;
    var more :| NoneAutomatic(more) && after.records == before.records + more;
    RecordsGrow(before.records, more, 0);
  }

  lemma ReceiverKeeps(planner: Planner, s: State, t: State)
    requires Inv(planner, s) && ReceiverStep(s, t)
    ensures Inv(planner, t)
  {
    forall w | 0 <= w < |t.calls|
      ensures Relies(planner, t, t.calls[w])
    {
      ReceiverKeepsOne(planner, s, t, s.calls[w]);
    }
    forall k | k in t.sessions
      ensures EndedOnce(t.sessions[k])
    {
      assert EndedOnce(s.sessions[k]) && ReceiverMay(s.sessions[k], t.sessions[k]);
    }
    hide Relies, Guarded, EndedOnce;
  }

  /**
   The shape of a step of call `w` that keeps the invariant: the others wait, and it holds the lock or not as its
   phase says.
   */
  lemma CallMoves(planner: Planner, s: State, t: State, w: nat)
    requires Inv(planner, s) && w < |s.calls| && (s.holder.None? || s.holder == Some(w))
    requires |t.calls| == |s.calls| && (forall v :: 0 <= v < |s.calls| && v != w ==> t.calls[v] == s.calls[v])
    requires t.holder == if Acquisition.Holds(t.calls[w]) then Some(w) else None
    requires Grows(s, t) && Relies(planner, t, t.calls[w])
    requires forall k :: k in t.sessions ==> EndedOnce(t.sessions[k])
    requires forall e :: e in t.log ==> Guarded(planner, e)
    ensures Inv(planner, t)
  {
    forall v | 0 <= v < |t.calls|
      ensures Relies(planner, t, t.calls[v])
      ensures Acquisition.Holds(t.calls[v]) <==> t.holder == Some(v)
    {
      if v != w {
        assert Acquisition.Holds(s.calls[v]) <==> s.holder == Some(v);
        WaitersRely(planner, s, t, s.calls[v]);
      }
    }
    hide Relies, Guarded, EndedOnce, Grows;
  }

  lemma SameSessionsGrow(s: State, t: State)
    requires t.sessions == s.sessions
    ensures Grows(s, t)
  {
    forall k | k in s.sessions
      ensures exists more :: t.sessions[k].records == s.sessions[k].records + more
    {
      assert t.sessions[k].records == s.sessions[k].records + [];
    }
  }

  lemma OneSessionGrows(s: State, t: State, source: string, more: seq<Record>)
    requires source in s.sessions && source in t.sessions
    requires t.sessions == s.sessions[source := t.sessions[source]]
    requires t.sessions[source].records == s.sessions[source].records + more
    ensures Grows(s, t)
  {
    forall k | k in s.sessions
      ensures exists more :: t.sessions[k].records == s.sessions[k].records + more
    {
      if k != source {
        assert t.sessions[k].records == s.sessions[k].records + [];
      }
    }
  }

  lemma BeginKeeps(planner: Planner, s: State, w: nat, readable: bool, retry: bool, now: Instant)
    requires Inv(planner, s) && w < |s.calls| && s.calls[w].Idle? && s.holder.None?
    ensures Inv(planner, Begin(planner, s, w, readable, retry, now))
  {
    var t := Begin(planner, s, w, readable, retry, now);
    SameSessionsGrow(s, t);
    hide Guarded, EndedOnce, FinalCaptureIsComplete, Reached, LatestDue, Grows;
    CallMoves(planner, s, t, w);
  }

  lemma RespondKeeps(planner: Planner, s: State, w: nat, arrived: bool, readable: bool)
    requires Inv(planner, s) && w < |s.calls| && s.calls[w].Requested? && s.holder.None?
    ensures Inv(planner, Respond(planner, s, w, arrived, readable))
  {
    var t := Respond(planner, s, w, arrived, readable);
    SameSessionsGrow(s, t);
    hide Guarded, EndedOnce, Grows;
    CallMoves(planner, s, t, w);
  }

  lemma CommitSpotsKeeps(planner: Planner, s: State, w: nat, saving: Saving, created: nat, at: Instant)
    requires Inv(planner, s) && w < |s.calls| && s.calls[w].Fetched?
    ensures Inv(planner, CommitSpots(s, w, saving, created, at))
  {
    var t := CommitSpots(s, w, saving, created, at);
    var call := s.calls[w].call;
    assert Relies(planner, s, s.calls[w]);
    assert s.holder == Some(w);
    if saving == Refused {
      SameSessionsGrow(s, t);
    } else {
      var record := ImportSummary(HttpsQuery, call.plan.windowEnd, at, created);
      OneSessionGrows(s, t, call.source, [record]);
      AppendOne(s.sessions[call.source].records, record, 0);
      assert Guarded(planner, CommitOf(s, Spots, call, call.revision));
    }
    hide Guarded, Grows, Valid, CapturedThrough;
    CallMoves(planner, s, t, w);
  }

  lemma SurveyKeeps(planner: Planner, s: State, w: nat, readable: bool)
    requires Inv(planner, s) && w < |s.calls| && s.calls[w].Surveying? && s.holder.None?
    ensures Inv(planner, Survey(planner, s, w, readable))
  {
    var t := Survey(planner, s, w, readable);
    SameSessionsGrow(s, t);
    assert Relies(planner, s, s.calls[w]);
    hide Guarded, EndedOnce, Grows;
    CallMoves(planner, s, t, w);
  }

  lemma CommitCensusKeeps(planner: Planner, s: State, w: nat, saving: Saving)
    requires Inv(planner, s) && w < |s.calls| && s.calls[w].Surveyed?
    ensures Inv(planner, CommitCensus(s, w, saving))
  {
    var t := CommitCensus(s, w, saving);
    var call := s.calls[w].call;
    assert Relies(planner, s, s.calls[w]);
    assert s.holder == Some(w);
    if saving == Refused {
      SameSessionsGrow(s, t);
    } else {
      OneSessionGrows(s, t, call.source, [CensusRecord(call.plan.windowEnd)]);
      StillReached(s, t, call.source, call.plan.windowEnd);
      assert Guarded(planner, CommitOf(s, Census, call, call.revision));
    }
    hide Guarded, Grows, CapturedThrough, Reached;
    CallMoves(planner, s, t, w);
  }

  lemma ConcludeKeeps(planner: Planner, s: State, w: nat, readable: bool)
    requires Inv(planner, s) && w < |s.calls| && s.calls[w].Concluding?
    ensures Inv(planner, Conclude(planner, s, w, readable))
  {
    var t := Conclude(planner, s, w, readable);
    SameSessionsGrow(s, t);
    assert Relies(planner, s, s.calls[w]);
    assert s.holder == Some(w);
    hide Guarded, EndedOnce, Grows, FinalCaptureIsComplete, Reached;
    CallMoves(planner, s, t, w);
  }

  lemma EndKeeps(planner: Planner, s: State, w: nat, saving: Saving)
    requires Inv(planner, s) && w < |s.calls| && s.calls[w].Ending?
    ensures Inv(planner, Acquisition.End(s, w, saving))
  {
    var t := Acquisition.End(s, w, saving);
    var source := s.calls[w].source;
    assert Relies(planner, s, s.calls[w]);
    assert s.holder == Some(w);
    assert EndedOnce(s.sessions[source]);
    if t.sessions == s.sessions {
      SameSessionsGrow(s, t);
    } else {
      assert t.sessions[source].records == s.sessions[source].records + [];
      OneSessionGrows(s, t, source, []);
    }
    hide Grows, Finished;
    CallMoves(planner, s, t, w);
  }

  lemma StepKeeps(planner: Planner, s: State, t: State)
    requires Inv(planner, s) && Step(planner, s, t)
    ensures Inv(planner, t)
  {
    hide Inv, OperatorStep, ReceiverStep;
    if OperatorStep(s, t) {
      OperatorKeeps(planner, s, t);
    } else if ReceiverStep(s, t) {
      ReceiverKeeps(planner, s, t);
    } else {
      var w :| CallStep(planner, s, t, w);
      CallKeeps(planner, s, t, w);
    }
  }

  lemma CallKeeps(planner: Planner, s: State, t: State, w: nat)
    requires Inv(planner, s) && CallStep(planner, s, t, w)
    ensures Inv(planner, t)
  {
    hide Inv, Begin, Respond, CommitSpots, Survey, CommitCensus, Conclude, Acquisition.End;
    match s.calls[w] {
      case Idle =>
        var readable, retry, now :| t == Begin(planner, s, w, readable, retry, now);
        BeginKeeps(planner, s, w, readable, retry, now);
      case Requested(_) =>
        var arrived, readable :| t == Respond(planner, s, w, arrived, readable);
        RespondKeeps(planner, s, w, arrived, readable);
      case Fetched(_, _) =>
        var saving, created, at :| t == CommitSpots(s, w, saving, created, at);
        CommitSpotsKeeps(planner, s, w, saving, created, at);
      case Surveying(_, _) =>
        var readable :| t == Survey(planner, s, w, readable);
        SurveyKeeps(planner, s, w, readable);
      case Surveyed(_, _, _) =>
        var saving :| t == CommitCensus(s, w, saving);
        CommitCensusKeeps(planner, s, w, saving);
      case Concluding(_, _, _) =>
        var readable :| t == Conclude(planner, s, w, readable);
        ConcludeKeeps(planner, s, w, readable);
      case Ending(_, _, _) =>
        var saving :| t == Acquisition.End(s, w, saving);
        EndKeeps(planner, s, w, saving);
    }
  }

  lemma InitInv(planner: Planner, s: State)
    requires Init(s)
    ensures Inv(planner, s)
  {
    forall k | k in s.sessions
      ensures EndedOnce(s.sessions[k])
    {
      assert MayOpen(s.sessions[k]);
    }
  }

  /**
   In every run, with any number of overlapping calls: evidence is only ever committed to the active, running,
   enabled session, at a revision no older than the request's, under a plan still authorized; a session is
   ended automatically only after a complete final capture that created evidence, and at most once.
   */
  lemma {:induction false} RunsAreSafe(planner: Planner, run: seq<State>, i: nat)
    requires IsRun(planner, run) && i < |run|
    ensures forall e :: e in run[i].log ==> Guarded(planner, e)
    ensures forall k :: k in run[i].sessions ==> run[i].sessions[k].automaticEnds <= 1
    ensures Inv(planner, run[i])
  {
    if i == 0 {
      InitInv(planner, run[0]);
    } else {
      RunsAreSafe(planner, run, i - 1);
      assert Step(planner, run[i - 1], run[i - 1 + 1]);
      StepKeeps(planner, run[i - 1], run[i]);
    }
    forall k | k in run[i].sessions
      ensures run[i].sessions[k].automaticEnds <= 1
    {
      assert EndedOnce(run[i].sessions[k]);
    }
  }
}
