/** What holds of every operator log, whatever it contains. */
module EventLogProperties {
  import opened Prelude
  import opened EventLog

  /** The lifecycle a log reaches, computed from its fresh lifecycle facts alone. */
  function LifecycleAfter<E>(initial: Lifecycle, log: seq<Entry<E>>): Lifecycle {
    if log == [] then initial
    else
      var k := |log| - 1;
      var before := LifecycleAfter(initial, log[..k]);
      if Position(log[..k], log[k].id) == k && log[k].fact.Transition? && Next(before, log[k].fact.step).Some? then
        Next(before, log[k].fact.step).value
      else before
  }

  lemma {:induction false} ReplayLifecycle<E>(initial: Lifecycle, log: seq<Entry<E>>)
    ensures Replay(initial, log).lifecycle == LifecycleAfter(initial, log)
  {
    if log != [] {
      ReplayLifecycle(initial, log[..|log| - 1]);
    }
  }

  /** The event at t is correctable evidence that the log admits. */
  ghost predicate AcceptedOriginal<E>(initial: Lifecycle, log: seq<Entry<E>>, t: nat) {
    && t < |log|
    && Fresh(log, t)
    && log[t].fact.Original?
    && !IsTerminal(LifecycleAfter(initial, log[..t]))
  }

  /** The event at k is an admitted correction of the event at t. */
  ghost predicate Corrects<E>(initial: Lifecycle, log: seq<Entry<E>>, k: nat, t: nat) {
    && t < k < |log|
    && Fresh(log, k)
    && log[k].fact.Correction?
    && log[k].fact.target == log[t].id
    && AcceptedOriginal(initial, log, t)
    && !IsTerminal(LifecycleAfter(initial, log[..k]))
  }

  /** The event at k is admitted: it changes the meaning of the log or is accepted silently. */
  ghost predicate Accepted<E>(initial: Lifecycle, log: seq<Entry<E>>, k: nat)
    requires k < |log|
  {
    var at := LifecycleAfter(initial, log[..k]);
    && Fresh(log, k)
    && match log[k].fact
       case Malformed(_) => false
       case Transition(step) => Next(at, step).Some?
       case Operational => at == Running
       case Correction(target, _) => exists t: nat :: Corrects(initial, log, k, t)
       case Original(_) => !IsTerminal(at)
  }

  lemma CorrectionOfPrefix<E>(initial: Lifecycle, log: seq<Entry<E>>, n: nat, k: nat, t: nat)
    requires k < n <= |log|
    ensures AcceptedOriginal(initial, log[..n], k) == AcceptedOriginal(initial, log, k)
    ensures Corrects(initial, log[..n], k, t) == Corrects(initial, log, k, t)
  {
    hide LifecycleAfter;
    assert log[..n][..k] == log[..k];
    if t < k {
      assert log[..n][..t] == log[..t];
    }
  }

  lemma AcceptanceOfPrefix<E>(initial: Lifecycle, log: seq<Entry<E>>, n: nat, k: nat)
    requires k < n <= |log|
    ensures Accepted(initial, log[..n], k) == Accepted(initial, log, k)
  {
    hide LifecycleAfter, Corrects, AcceptedOriginal;
    assert log[..n][..k] == log[..k];
    forall t: nat
      ensures Corrects(initial, log[..n], k, t) == Corrects(initial, log, k, t)
    {
      CorrectionOfPrefix(initial, log, n, k, t);
    }
  }

  /** How one more event changes an earlier cell: only an admitted correction of it does. */
  lemma {:induction false} ExtendCell<E>(initial: Lifecycle, log: seq<Entry<E>>, n: nat, t: nat)
    requires t < n && n + 1 == |log|
    requires Replay(initial, log[..n]).board[t].Holds? <==> AcceptedOriginal(initial, log, t)
    ensures Replay(initial, log).board[t] ==
              if Corrects(initial, log, n, t) then Holds(log[n].fact.replacement)
              else Replay(initial, log[..n]).board[t]
  {
    hide Replay, LifecycleAfter;
    var before := Replay(initial, log[..n]);
    assert Replay(initial, log) == Extend(before, log[..n], log[n]) by {
      ReplayAppend(initial, log[..n], log[n]);
      assert log == log[..n] + [log[n]];
    }
    ReplayLifecycle(initial, log[..n]);
    if log[n].fact.Correction? {
      var p := Position(log[..n], log[n].fact.target);
      assert p < n ==> log[p].id == log[n].fact.target;
      assert log[t].id == log[n].fact.target ==> p <= t;
    }
  }

  lemma {:induction false} NewCell<E>(initial: Lifecycle, log: seq<Entry<E>>, n: nat)
    requires n + 1 == |log|
    ensures Replay(initial, log).board[n].Holds? <==> AcceptedOriginal(initial, log, n)
    ensures AcceptedOriginal(initial, log, n) ==> Replay(initial, log).board[n] == Holds(Some(log[n].fact.value))
  {
    hide Replay, LifecycleAfter;
    assert log == log[..n] + [log[n]];
    ReplayAppend(initial, log[..n], log[n]);
    ReplayLifecycle(initial, log[..n]);
    assert Fresh(log, n) <==> Position(log[..n], log[n].id) == n;
  }

  /**
   Last accepted correction wins.  A position holds evidence exactly when its event is an
   admitted original; it keeps its own value until corrected, and then carries what the
   last admitted correction of it says, whether that is a retraction or a replacement.
   */
  lemma {:induction false} LastCorrectionWins<E>(initial: Lifecycle, log: seq<Entry<E>>, t: nat)
    requires t < |log|
    ensures Replay(initial, log).board[t].Holds? <==> AcceptedOriginal(initial, log, t)
    ensures AcceptedOriginal(initial, log, t) && (forall k: nat :: !Corrects(initial, log, k, t)) ==>
              Replay(initial, log).board[t] == Holds(Some(log[t].fact.value))
    ensures forall k: nat ::
              Corrects(initial, log, k, t) && (forall j: nat :: j > k ==> !Corrects(initial, log, j, t)) ==>
              Replay(initial, log).board[t] == Holds(log[k].fact.replacement)
  {
    hide Replay, AcceptedOriginal;
    var n := |log| - 1;
    forall k: nat | k < n
      ensures Corrects(initial, log[..n], k, t) == Corrects(initial, log, k, t)
    {
      CorrectionOfPrefix(initial, log, n, k, t);
    }
    if t < n {
      LastCorrectionWins(initial, log[..n], t);
      CorrectionOfPrefix(initial, log, n, t, t);
      ExtendCell(initial, log, n, t);
    } else {
      NewCell(initial, log, n);
    }
  }

  /** The ids of the events a log rejects, in log order. */
  ghost function RejectedIds<E>(initial: Lifecycle, log: seq<Entry<E>>): seq<string> {
    if log == [] then []
    else
      var k := |log| - 1;
      RejectedIds(initial, log[..k]) + (if Accepted(initial, log, k) then [] else [log[k].id])
  }

  function DiagnosedIds(diagnostics: seq<Diagnostic>): seq<string> {
    seq(|diagnostics|, i requires 0 <= i < |diagnostics| => diagnostics[i].eventId)
  }

  /** The first event with the target id decides whether a correction has a target. */
  lemma {:induction false} CorrectionHasTarget<E>(initial: Lifecycle, log: seq<Entry<E>>, k: nat)
    requires k + 1 == |log| && log[k].fact.Correction? && Fresh(log, k)
    requires !IsTerminal(LifecycleAfter(initial, log[..k]))
    ensures var p := Position(log[..k], log[k].fact.target);
            (p < k && Replay(initial, log[..k]).board[p].Holds?) <==> exists t: nat :: Corrects(initial, log, k, t)
  {
    hide Replay, LifecycleAfter, Extend, Next, IsTerminal, Position;
    var p := Position(log[..k], log[k].fact.target);
    if p < k {
      LastCorrectionWins(initial, log[..k], p);
      assert log[..k][..p] == log[..p];
      if Replay(initial, log[..k]).board[p].Holds? {
        assert Corrects(initial, log, k, p);
      }
    }
    forall t: nat | Corrects(initial, log, k, t)
      ensures t == p && Replay(initial, log[..k]).board[p].Holds?
    {
      assert log[..k][t].id == log[k].fact.target;
      LastCorrectionWins(initial, log[..k], t);
      assert log[..k][..t] == log[..t];
    }
  }

  lemma {:induction false} NoCorrectionAfterEnd<E>(initial: Lifecycle, log: seq<Entry<E>>, k: nat)
    requires k < |log| && IsTerminal(LifecycleAfter(initial, log[..k]))
    ensures forall t: nat :: !Corrects(initial, log, k, t)
  {
  }

  /** An event is admitted by the replay exactly when it adds no diagnostic. */
  lemma {:induction false} AcceptedIffSilent<E>(initial: Lifecycle, log: seq<Entry<E>>, k: nat)
    requires k + 1 == |log|
    ensures Accepted(initial, log, k) ==>
              Replay(initial, log).diagnostics == Replay(initial, log[..k]).diagnostics
    ensures !Accepted(initial, log, k) ==>
              exists d :: Replay(initial, log).diagnostics == Replay(initial, log[..k]).diagnostics + [d]
                          && d.eventId == log[k].id
  {
    hide Replay, LifecycleAfter, Corrects;
    var before, after := Replay(initial, log[..k]), Replay(initial, log);
    assert after == Extend(before, log[..k], log[k]) by {
      ReplayAppend(initial, log[..k], log[k]);
      assert log == log[..k] + [log[k]];
    }
    ReplayLifecycle(initial, log[..k]);
    assert Fresh(log, k) <==> Position(log[..k], log[k].id) == k;
    if log[k].fact.Correction? && Fresh(log, k) && !IsTerminal(before.lifecycle) {
      CorrectionHasTarget(initial, log, k);
    } else if log[k].fact.Correction? && Fresh(log, k) {
      NoCorrectionAfterEnd(initial, log, k);
    }
    if !Accepted(initial, log, k) {
      var d := after.diagnostics[|before.diagnostics|];
      assert after.diagnostics == before.diagnostics + [d];
    }
  }

  /** Diagnostics name exactly the rejected events, once each and in log order. */
  lemma {:induction false} DiagnosticsNameTheRejected<E>(initial: Lifecycle, log: seq<Entry<E>>)
    ensures DiagnosedIds(Replay(initial, log).diagnostics) == RejectedIds(initial, log)
  {
    if log != [] {
      var k := |log| - 1;
      hide Replay, Accepted;
      DiagnosticsNameTheRejected(initial, log[..k]);
      AcceptedIffSilent(initial, log, k);
    }
  }

  lemma ExtendDiagnostics<E>(before: Ledger<E>, log: seq<Entry<E>>, entry: Entry<E>)
    requires |before.board| == |log|
    ensures before.diagnostics <= Extend(before, log, entry).diagnostics
    ensures |Extend(before, log, entry).diagnostics| <= |before.diagnostics| + 1
  {
  }

  /** Later events never alter earlier diagnostics, and each adds at most one. */
  lemma {:induction false} DiagnosticsOnlyGrow<E>(initial: Lifecycle, log: seq<Entry<E>>, more: seq<Entry<E>>)
    ensures Replay(initial, log).diagnostics <= Replay(initial, log + more).diagnostics
    ensures |Replay(initial, log + more).diagnostics| <= |Replay(initial, log).diagnostics| + |more|
  {
    if more == [] {
      assert log + more == log;
    } else {
      hide Extend;
      var last := |more| - 1;
      ExtendDiagnostics(Replay(initial, log + more[..last]), log + more[..last], more[last]);
      DiagnosticsOnlyGrow(initial, log, more[..last]);
      ConcatLast(log, more);
      ReplayAppend(initial, log + more[..last], more[last]);
    }
  }

  /** A log is free of diagnostics exactly when every one of its events is admitted. */
  lemma {:induction false} CleanIffAllAccepted<E>(initial: Lifecycle, log: seq<Entry<E>>)
    ensures Replay(initial, log).diagnostics == [] <==> forall k :: 0 <= k < |log| ==> Accepted(initial, log, k)
  {
    if log != [] {
      hide Extend, Accepted;
      var n := |log| - 1;
      CleanIffAllAccepted(initial, log[..n]);
      AcceptedIffSilent(initial, log, n);
      forall k | 0 <= k < n
        ensures Accepted(initial, log[..n], k) == Accepted(initial, log, k)
      {
        AcceptanceOfPrefix(initial, log, n, k);
      }
    }
  }

  /** In a log free of diagnostics, ids are distinct and corrections point backward at evidence. */
  lemma {:induction false} CleanLogsAreWellFormed<E>(initial: Lifecycle, log: seq<Entry<E>>)
    requires Replay(initial, log).diagnostics == []
    ensures forall j, k :: 0 <= j < k < |log| ==> log[j].id != log[k].id
    ensures forall k :: 0 <= k < |log| && log[k].fact.Correction? ==>
              exists t :: 0 <= t < k && log[t].id == log[k].fact.target && log[t].fact.Original?
  {
    CleanIffAllAccepted(initial, log);
    forall k | 0 <= k < |log|
      ensures Fresh(log, k)
      ensures log[k].fact.Correction? ==>
                exists t :: 0 <= t < k && log[t].id == log[k].fact.target && log[t].fact.Original?
    {
      assert Accepted(initial, log, k);
      if log[k].fact.Correction? {
        var t: nat :| Corrects(initial, log, k, t);
      }
    }
  }

  lemma ExtendTerminal<E>(before: Ledger<E>, log: seq<Entry<E>>, entry: Entry<E>)
    requires |before.board| == |log| && IsTerminal(before.lifecycle)
    ensures Extend(before, log, entry).lifecycle == before.lifecycle
    ensures Extend(before, log, entry).board == before.board + [Blank]
    ensures |Extend(before, log, entry).diagnostics| == |before.diagnostics| + 1
  {
  }

  /** Nothing appended to an ended or abandoned session changes it; every event is refused. */
  lemma {:induction false} TerminalIsFinal<E>(initial: Lifecycle, log: seq<Entry<E>>, more: seq<Entry<E>>)
    requires IsTerminal(Replay(initial, log).lifecycle)
    ensures Replay(initial, log + more).lifecycle == Replay(initial, log).lifecycle
    ensures View(Replay(initial, log + more).board) == View(Replay(initial, log).board)
    ensures |Replay(initial, log + more).diagnostics| == |Replay(initial, log).diagnostics| + |more|
  {
    if more == [] {
      assert log + more == log;
    } else {
      hide *;
      var last := |more| - 1;
      var before := Replay(initial, log + more[..last]);
      TerminalIsFinal(initial, log, more[..last]);
      ConcatLast(log, more);
      ReplayAppend(initial, log + more[..last], more[last]);
      ExtendTerminal(before, log + more[..last], more[last]);
      ViewBlank(before.board);
    }
  }
}
