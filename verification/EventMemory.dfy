/** How the reducers' hash set, hash map and slot vector represent a replayed log. */
module EventMemory {
  import opened Prelude
  import opened EventLog

  ghost predicate InMemory<E>(ledger: Ledger<E>, log: seq<Entry<E>>,
                              seen: set<string>, originals: map<string, nat>, effective: seq<Option<E>>)
  {
    && |ledger.board| == |log|
    && effective == Held(ledger.board)
    && (forall id :: id in seen <==> Position(log, id) < |log|)
    && (forall id :: id in originals <==> Position(log, id) < |log| && ledger.board[Position(log, id)].Holds?)
    && (forall id :: id in originals ==> originals[id] == Rank(ledger.board, Position(log, id)))
  }

  lemma Empty<E>(ledger: Ledger<E>)
    requires ledger.board == []
    ensures InMemory(ledger, [], {}, map[], [])
  {
  }

  lemma InMemoryLength<E>(ledger: Ledger<E>, log: seq<Entry<E>>,
                          seen: set<string>, originals: map<string, nat>, effective: seq<Option<E>>)
    requires InMemory(ledger, log, seen, originals, effective)
    ensures |ledger.board| == |log|
  {
  }

  lemma {:induction false} ViewFromMemory<E>(ledger: Ledger<E>, log: seq<Entry<E>>,
                                             seen: set<string>, originals: map<string, nat>, effective: seq<Option<E>>)
    requires InMemory(ledger, log, seen, originals, effective)
    ensures View(ledger.board) == Values(effective)
  {
  }

  lemma {:induction false} PositionAppend<E>(log: seq<Entry<E>>, entry: Entry<E>, id: string)
    ensures Position(log + [entry], id) ==
              if Position(log, id) < |log| then Position(log, id)
              else if entry.id == id then |log| else |log| + 1
  {
    var longer := log + [entry];
    assert forall j {:trigger longer[j]} :: 0 <= j < |log| ==> longer[j] == log[j];
    assert Position(log, id) < |log| ==> longer[Position(log, id)].id == id;
    assert longer[|log|] == entry;
  }

  /** An event that changes no evidence leaves the map and the slots alone. */
  lemma RememberBlank<E>(before: Ledger<E>, after: Ledger<E>, log: seq<Entry<E>>, entry: Entry<E>,
                         seen: set<string>, originals: map<string, nat>, effective: seq<Option<E>>)
    requires InMemory(before, log, seen, originals, effective)
    requires after.board == before.board + [Blank]
    ensures InMemory(after, log + [entry], seen + {entry.id}, originals, effective)
  {
    hide Held, View, Position, Rank;
    ViewBlank(before.board);
    RememberedPositions(before.board, [Blank], log, entry);
  }

  /** A fresh correctable event is indexed by its id and pushed onto the slots. */
  lemma RememberOriginal<E>(before: Ledger<E>, after: Ledger<E>, log: seq<Entry<E>>, entry: Entry<E>, value: E,
                            seen: set<string>, originals: map<string, nat>, effective: seq<Option<E>>)
    requires InMemory(before, log, seen, originals, effective) && entry.id !in seen
    requires after.board == before.board + [Holds(Some(value))]
    ensures InMemory(after, log + [entry], seen + {entry.id}, originals[entry.id := |effective|],
                     effective + [Some(value)])
  {
    hide Held, View, Position, Rank;
    HeldPush(before.board, value);
    RememberedPositions(before.board, [Holds(Some(value))], log, entry);
  }

  lemma {:induction false} HeldPush<E>(board: seq<Cell<E>>, value: E)
    ensures Held(board + [Holds(Some(value))]) == Held(board) + [Some(value)]
    ensures Rank(board + [Holds(Some(value))], |board|) == |Held(board)|
  {
    HeldConcat(board, [Holds(Some(value))]);
    assert Held([Holds(Some(value))]) == [Some(value)];
    assert (board + [Holds(Some(value))])[..|board|] == board;
  }

  lemma {:induction false} RememberedPositions<E>(board: seq<Cell<E>>, more: seq<Cell<E>>, log: seq<Entry<E>>,
                                                  entry: Entry<E>)
    requires |board| == |log|
    ensures forall id :: Position(log + [entry], id) == if Position(log, id) < |log| then Position(log, id)
                                                        else if entry.id == id then |log| else |log| + 1
    ensures forall id :: Rank(board + more, Position(log, id)) == Rank(board, Position(log, id))
  {
    hide Held, Position, Rank;
    forall id
      ensures Position(log + [entry], id) == if Position(log, id) < |log| then Position(log, id)
                                             else if entry.id == id then |log| else |log| + 1
      ensures Rank(board + more, Position(log, id)) == Rank(board, Position(log, id))
    {
      PositionAppend(log, entry, id);
      RankAppend(board, more, Position(log, id));
    }
  }

  /** An admitted correction overwrites the slot that its target id is indexed to. */
  lemma {:induction false} RememberCorrection<E>(before: Ledger<E>, after: Ledger<E>, log: seq<Entry<E>>,
                                                 entry: Entry<E>, target: string, value: Option<E>, seen: set<string>,
                                                 originals: map<string, nat>, effective: seq<Option<E>>)
    requires InMemory(before, log, seen, originals, effective)
    requires target in originals
    requires after.board == before.board[Position(log, target) := Holds(value)] + [Blank]
    ensures originals[target] < |effective|
    ensures InMemory(after, log + [entry], seen + {entry.id}, originals, effective[originals[target] := value])
  {
    var t := Position(log, target);
    var updated := before.(board := before.board[t := Holds(value)]);
    HeldUpdate(before.board, t, value);
    assert InMemory(updated, log, seen, originals, effective[originals[target] := value]) by {
      hide Held, Position, Rank;
      forall id
        ensures Position(log, id) <= |log|
        ensures Rank(updated.board, Position(log, id)) == Rank(before.board, Position(log, id))
      {
        RankUpdate(before.board, t, value, Position(log, id));
      }
    }
    RememberBlank(updated, after, log, entry, seen, originals, effective[originals[target] := value]);
  }

  // ----- one lemma for each way through the reducers' loop -----

  lemma OnDuplicate<E>(before: Ledger<E>, log: seq<Entry<E>>, entry: Entry<E>,
                       seen: set<string>, originals: map<string, nat>, effective: seq<Option<E>>)
    requires InMemory(before, log, seen, originals, effective) && entry.id in seen
    ensures Extend(before, log, entry) == Reject(before, entry.id, None, DuplicateEventId, IdDuplicated)
    ensures InMemory(Extend(before, log, entry), log + [entry], seen, originals, effective)
  {
    RememberBlank(before, Extend(before, log, entry), log, entry, seen, originals, effective);
    assert seen + {entry.id} == seen;
  }

  lemma OnMalformed<E>(before: Ledger<E>, log: seq<Entry<E>>, entry: Entry<E>,
                       seen: set<string>, originals: map<string, nat>, effective: seq<Option<E>>)
    requires InMemory(before, log, seen, originals, effective) && entry.id !in seen && entry.fact.Malformed?
    ensures Extend(before, log, entry) == Reject(before, entry.id, None, InvalidEventShape, entry.fact.message)
    ensures InMemory(Extend(before, log, entry), log + [entry], seen + {entry.id}, originals, effective)
  {
    RememberBlank(before, Extend(before, log, entry), log, entry, seen, originals, effective);
  }

  lemma OnTransition<E>(before: Ledger<E>, log: seq<Entry<E>>, entry: Entry<E>,
                        seen: set<string>, originals: map<string, nat>, effective: seq<Option<E>>)
    requires InMemory(before, log, seen, originals, effective) && entry.id !in seen && entry.fact.Transition?
    ensures match Next(before.lifecycle, entry.fact.step)
            case Some(next) => Extend(before, log, entry) == before.(lifecycle := next, board := before.board + [Blank])
            case None => Extend(before, log, entry) ==
                         Reject(before, entry.id, None, InvalidLifecycleTransition, TransitionFrom(before.lifecycle))
    ensures InMemory(Extend(before, log, entry), log + [entry], seen + {entry.id}, originals, effective)
  {
    RememberBlank(before, Extend(before, log, entry), log, entry, seen, originals, effective);
  }

  ghost predicate IsEvidence<E>(fact: Fact<E>) {
    fact.Operational? || fact.Correction? || fact.Original?
  }

  lemma OnTerminal<E>(before: Ledger<E>, log: seq<Entry<E>>, entry: Entry<E>,
                      seen: set<string>, originals: map<string, nat>, effective: seq<Option<E>>)
    requires InMemory(before, log, seen, originals, effective) && entry.id !in seen && IsEvidence(entry.fact)
    requires IsTerminal(before.lifecycle)
    ensures Extend(before, log, entry) == Reject(before, entry.id, None, InvalidLifecycleTransition, AfterTerminal)
    ensures InMemory(Extend(before, log, entry), log + [entry], seen + {entry.id}, originals, effective)
  {
    RememberBlank(before, Extend(before, log, entry), log, entry, seen, originals, effective);
  }

  lemma OnOperational<E>(before: Ledger<E>, log: seq<Entry<E>>, entry: Entry<E>,
                         seen: set<string>, originals: map<string, nat>, effective: seq<Option<E>>)
    requires InMemory(before, log, seen, originals, effective) && entry.id !in seen && entry.fact.Operational?
    requires !IsTerminal(before.lifecycle)
    ensures Extend(before, log, entry) ==
              if before.lifecycle == Running then before.(board := before.board + [Blank])
              else Reject(before, entry.id, None, InvalidLifecycleTransition, RequiresRunning)
    ensures InMemory(Extend(before, log, entry), log + [entry], seen + {entry.id}, originals, effective)
  {
    RememberBlank(before, Extend(before, log, entry), log, entry, seen, originals, effective);
  }

  lemma OnCorrection<E>(before: Ledger<E>, log: seq<Entry<E>>, entry: Entry<E>,
                        seen: set<string>, originals: map<string, nat>, effective: seq<Option<E>>)
    requires InMemory(before, log, seen, originals, effective) && entry.id !in seen && entry.fact.Correction?
    requires !IsTerminal(before.lifecycle)
    ensures entry.fact.target !in originals ==>
              && Extend(before, log, entry) ==
                 Reject(before, entry.id, Some(entry.fact.target), InvalidCorrectionTarget, TargetNotEarlier)
              && InMemory(Extend(before, log, entry), log + [entry], seen + {entry.id}, originals, effective)
    ensures entry.fact.target in originals ==>
              && originals[entry.fact.target] < |effective|
              && Extend(before, log, entry).lifecycle == before.lifecycle
              && Extend(before, log, entry).diagnostics == before.diagnostics
              && InMemory(Extend(before, log, entry), log + [entry], seen + {entry.id}, originals,
                          effective[originals[entry.fact.target] := entry.fact.replacement])
  {
    var after := Extend(before, log, entry);
    if entry.fact.target in originals {
      RememberCorrection(before, after, log, entry, entry.fact.target, entry.fact.replacement, seen, originals,
                         effective);
    } else {
      RememberBlank(before, after, log, entry, seen, originals, effective);
    }
  }

  lemma OnOriginal<E>(before: Ledger<E>, log: seq<Entry<E>>, entry: Entry<E>,
                      seen: set<string>, originals: map<string, nat>, effective: seq<Option<E>>)
    requires InMemory(before, log, seen, originals, effective) && entry.id !in seen && entry.fact.Original?
    requires !IsTerminal(before.lifecycle)
    ensures Extend(before, log, entry).lifecycle == before.lifecycle
    ensures Extend(before, log, entry).diagnostics == before.diagnostics
    ensures InMemory(Extend(before, log, entry), log + [entry], seen + {entry.id},
                     originals[entry.id := |effective|], effective + [Some(entry.fact.value)])
  {
    RememberOriginal(before, Extend(before, log, entry), log, entry, entry.fact.value, seen, originals, effective);
  }
}
