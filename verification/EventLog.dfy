/**
 The meaning of an append-only operator log, independent of the record schema.

 Both event schemas classify each event into a `Fact`.  `Replay` says what a log of such
 facts means: the lifecycle reached, the diagnostics reported, and a board with one cell
 for every log position, holding the current value of each accepted correctable event.
 */
module EventLog {
  import opened Prelude

  datatype Lifecycle = Draft | Ready | Running | Interrupted | Ended | Abandoned

  datatype LifecycleStep = Start | Interrupt | DetectInterruption | Resume | End | Abandon

  datatype DiagnosticCode =
    | DuplicateEventId
    | InvalidLifecycleTransition
    | InvalidCorrectionTarget
    | InvalidCorrectionReason
    | InvalidEventShape

  /** One tag for each distinct human-readable message. */
  datatype Message =
    | IdDuplicated
    | TransitionFrom(from: Lifecycle)
    | NotALifecycleTransition
    | AfterTerminal
    | RequiresRunning
    | TargetNotEarlier
    | NotCorrectable
    | LifecycleNamesSlot
    | SlotRequired(kind: EventKind)
    | LabelNotTrimmed(kind: EventKind)
    | TextEmpty(kind: EventKind)
    | ReplacementSlotRequired(kind: EventKind)
    | ReplacementLabelNotTrimmed
    | ReplacementTextEmpty(kind: EventKind)
    | SwitchNamesSlot
    | CycleStartMisaligned
    | CycleStartsEarly
    | CorrectionNamesSlot
    | CorrectionTargetEmpty
    | CorrectionReasonEmpty

  datatype EventKind = ConfirmationKind | SignalKind | ArmedKind | MissedKind | BadKind | NoteKind

  datatype Diagnostic = Diagnostic(
    eventId: string, related: Option<string>, code: DiagnosticCode, message: Message)

  /** What one event contributes; `E` is the schema's effective-event record. */
  datatype Fact<+E> =
    | Malformed(message: Message)
    | Transition(step: LifecycleStep)
    | Operational
    | Correction(target: string, replacement: Option<E>)   // None retracts
    | Original(value: E)

  datatype Entry<+E> = Entry(id: string, fact: Fact<E>)

  /** A log position is blank unless an accepted correctable event sits there. */
  datatype Cell<+E> = Blank | Holds(value: Option<E>)

  datatype Ledger<+E> = Ledger(lifecycle: Lifecycle, diagnostics: seq<Diagnostic>, board: seq<Cell<E>>)

  predicate IsTerminal(lifecycle: Lifecycle) {
    lifecycle == Ended || lifecycle == Abandoned
  }

  function Next(current: Lifecycle, step: LifecycleStep): Option<Lifecycle> {
    match step
    case Start => if current == Ready then Some(Running) else None
    case Interrupt | DetectInterruption => if current == Running then Some(Interrupted) else None
    case Resume => if current == Interrupted then Some(Running) else None
    case End => if current == Running || current == Interrupted then Some(Ended) else None
    case Abandon => if IsTerminal(current) then None else Some(Abandoned)
  }

  /** The first position carrying this id, or the length of the log. */
  function Position<E>(log: seq<Entry<E>>, id: string): (p: nat)
    ensures p <= |log|
    ensures p < |log| ==> log[p].id == id
    ensures forall j :: 0 <= j < p ==> log[j].id != id
  {
    if log == [] || log[0].id == id then 0 else 1 + Position(log[1..], id)
  }

  /** Holds when no earlier position carries the same id. */
  ghost predicate Fresh<E>(log: seq<Entry<E>>, k: nat)
    requires k < |log|
  {
    forall j :: 0 <= j < k ==> log[j].id != log[k].id
  }

  function Replay<E>(initial: Lifecycle, log: seq<Entry<E>>): (r: Ledger<E>)
    ensures |r.board| == |log|
  {
    if log == [] then Ledger(initial, [], [])
    else
      var k := |log| - 1;
      Extend(Replay(initial, log[..k]), log[..k], log[k])
  }

  function Reject<E>(before: Ledger<E>, id: string, related: Option<string>,
                     code: DiagnosticCode, message: Message): (after: Ledger<E>)
  {
    before.(diagnostics := before.diagnostics + [Diagnostic(id, related, code, message)],
            board := before.board + [Blank])
  }

  function Extend<E>(before: Ledger<E>, log: seq<Entry<E>>, entry: Entry<E>): (after: Ledger<E>)
    requires |before.board| == |log|
    ensures |after.board| == |log| + 1
  {
    if Position(log, entry.id) < |log| then
      Reject(before, entry.id, None, DuplicateEventId, IdDuplicated)
    else if entry.fact.Malformed? then
      Reject(before, entry.id, None, InvalidEventShape, entry.fact.message)
    else if entry.fact.Transition? then
      match Next(before.lifecycle, entry.fact.step)
      case Some(next) => before.(lifecycle := next, board := before.board + [Blank])
      case None => Reject(before, entry.id, None, InvalidLifecycleTransition, TransitionFrom(before.lifecycle))
    else if IsTerminal(before.lifecycle) then
      Reject(before, entry.id, None, InvalidLifecycleTransition, AfterTerminal)
    else
      match entry.fact
      case Operational =>
        if before.lifecycle == Running then before.(board := before.board + [Blank])
        else Reject(before, entry.id, None, InvalidLifecycleTransition, RequiresRunning)
      case Correction(target, value) =>
        var t := Position(log, target);
        if t < |log| && before.board[t].Holds? then
          before.(board := before.board[t := Holds(value)] + [Blank])
        else Reject(before, entry.id, Some(target), InvalidCorrectionTarget, TargetNotEarlier)
      case Original(value) => before.(board := before.board + [Holds(Some(value))])
  }

  /** The effective view: current values in append order, retracted ones left out. */
  function View<E>(board: seq<Cell<E>>): seq<E> {
    Values(Held(board))
  }

  /** The held cells without the blank positions: the shape the reducers keep in memory. */
  function Held<E>(board: seq<Cell<E>>): (slots: seq<Option<E>>) {
    if board == [] then []
    else (if board[0].Holds? then [board[0].value] else []) + Held(board[1..])
  }

  /** Where the cell at position p sits among the held cells. */
  function Rank<E>(board: seq<Cell<E>>, p: nat): nat
    requires p <= |board|
  {
    |Held(board[..p])|
  }

  // ----- replaying longer logs -----

  lemma {:induction false} ReplayAppend<E>(initial: Lifecycle, log: seq<Entry<E>>, entry: Entry<E>)
    ensures Replay(initial, log + [entry]) == Extend(Replay(initial, log), log, entry)
  {
    assert (log + [entry])[..|log|] == log;
  }

  /** One event leaves the board alone, adds evidence at its own position, or corrects one cell. */
  lemma {:induction false} ExtendedBoard<E>(before: Ledger<E>, log: seq<Entry<E>>, e: Entry<E>)
    requires |before.board| == |log|
    ensures var after := Extend(before, log, e).board;
            || after == before.board + [Blank]
            || (Position(log, e.id) == |log| && e.fact.Original? && after == before.board + [Holds(Some(e.fact.value))])
            || (e.fact.Correction? && var t := Position(log, e.fact.target);
                t < |log| && before.board[t].Holds? && after == before.board[t := Holds(e.fact.replacement)] + [Blank])
  {
    hide Next;
  }

  lemma {:induction false} HeldConcat<E>(a: seq<Cell<E>>, b: seq<Cell<E>>)
    ensures Held(a + b) == Held(a) + Held(b)
  {
    if a == [] {
      assert a + b == b;
    } else {
      var head := if a[0].Holds? then [a[0].value] else [];
      assert (a + b)[0] == a[0] && (a + b)[1..] == a[1..] + b;
      HeldConcat(a[1..], b);
      assert Held(a + b) == head + (Held(a[1..]) + Held(b));
      assert Held(a) == head + Held(a[1..]);
    }
  }

  lemma {:induction false} ViewBlank<E>(board: seq<Cell<E>>)
    ensures Held(board + [Blank]) == Held(board)
    ensures View(board + [Blank]) == View(board)
  {
    HeldConcat(board, [Blank]);
  }

  /** Overwriting a held cell overwrites exactly its slot among the held cells. */
  lemma {:induction false} HeldUpdate<E>(board: seq<Cell<E>>, p: nat, value: Option<E>)
    requires p < |board| && board[p].Holds?
    ensures Rank(board, p) < |Held(board)|
    ensures Held(board)[Rank(board, p)] == board[p].value
    ensures Held(board[p := Holds(value)]) == Held(board)[Rank(board, p) := value]
  {
    var head, tail := board[..p], board[p + 1..];
    assert board == head + [board[p]] + tail;
    assert board[p := Holds(value)] == head + [Holds(value)] + tail;
    HeldConcat(head + [board[p]], tail);
    HeldConcat(head, [board[p]]);
    HeldConcat(head + [Holds(value)], tail);
    HeldConcat(head, [Holds(value)]);
  }

  lemma RankAppend<E>(board: seq<Cell<E>>, more: seq<Cell<E>>, p: nat)
    requires p <= |board|
    ensures Rank(board + more, p) == Rank(board, p)
  {
    assert (board + more)[..p] == board[..p];
  }

  /** The rank of a position does not depend on the values the cells hold. */
  lemma {:induction false} RankUpdate<E>(board: seq<Cell<E>>, q: nat, value: Option<E>, p: nat)
    requires p <= |board| && q < |board| && board[q].Holds?
    ensures Rank(board[q := Holds(value)], p) == Rank(board, p)
  {
    if q < p {
      assert board[q := Holds(value)][..p] == board[..p][q := Holds(value)];
      HeldUpdate(board[..p], q, value);
    } else {
      assert board[q := Holds(value)][..p] == board[..p];
    }
  }
}
