/**
 Committing received evidence against a revision that other writers advance.

 A mutation is identified by its id; the store refuses a stale revision, treats a mutation it already holds as
 committed and refuses another one of the same id.  Other writers' mutations and the ways an append can fail are given,
 turn by turn, as arguments.
 */
module OptimisticCommit {
  import opened Prelude
  import opened EventLog

  /** A mutation and its members, of which only equality matters. */
  datatype Mutation = Mutation(id: string, members: int)

  /**
   How one append ends.  A failure to open or refresh the writer comes before everything else, and a mutation refused
   for its content is not written either.
   */
  datatype Ending = Acknowledged | LostAcknowledgement | NotWritten

  /**
   What surrounds one attempt: mutations others commit before it, how the append ends, mutations others
   commit before a failed attempt is looked up again, and whether the later steps succeed.
   */
  datatype Turn = Turn(before: seq<Mutation>, ending: Ending, between: seq<Mutation>, readable: bool, projected: bool)

  datatype Receipt = Committed(idempotent: bool) | StaleRevision(actual: nat) | Conflict | Failed

  datatype Decision = Continue | StopNotProjected | StopFailed | StopStale | StopExhausted

  function Ids(log: seq<Mutation>): (ids: seq<string>)
    ensures |ids| == |log|
  {
    seq(|log|, i requires 0 <= i < |log| => log[i].id)
  }

  /** The first mutation with this id. */
  function Find(log: seq<Mutation>, id: string): (m: Option<Mutation>)
    ensures m.Some? <==> id in Ids(log)
    ensures m.Some? ==> m.value in log && m.value.id == id
  {
    if log == [] then None
    else
      assert Ids(log) == [log[0].id] + Ids(log[1..]);
      if log[0].id == id then Some(log[0]) else Find(log[1..], id)
  }

  /** The durable log of a session, as mutations in commit order, and its revision. */
  class Checkpoint {
    var log: seq<Mutation>
    var revision: nat

    constructor (log: seq<Mutation>, revision: nat)
      ensures this.log == log && this.revision == revision
    {
      this.log, this.revision := log, revision;
    }

    /** Other writers commit. */
    method Advance(mutations: seq<Mutation>)
      modifies this
      ensures log == old(log) + mutations && revision == old(revision) + |mutations|
    {
      log, revision := log + mutations, revision + |mutations|;
    }

    method Append(m: Mutation, expected: nat, ending: Ending) returns (r: Receipt)
      modifies this
      ensures (r, Store(log, revision)) == AppendTo(Store(old(log), old(revision)), m, expected, ending)
    {
      if ending == NotWritten {
        return Failed;
      }
      var existing := Find(log, m.id);
      if existing.Some? {
        return if existing.value.members == m.members then Committed(true) else Conflict;
      }
      if expected != revision {
        return StaleRevision(revision);
      }
      log, revision := log + [m], revision + 1;
      r := if ending == Acknowledged then Committed(false) else Failed;
    }

    function LastCommitted(): Option<string>
      reads this
    {
      if log == [] then None else Some(log[|log| - 1].id)
    }
  }

  datatype Store = Store(log: seq<Mutation>, revision: nat)

  function AppendTo(s: Store, m: Mutation, expected: nat, ending: Ending): (Receipt, Store) {
    if ending == NotWritten then (Failed, s)
    else
      match Find(s.log, m.id)
      case Some(existing) => (if existing.members == m.members then Committed(true) else Conflict, s)
      case None =>
        if expected != s.revision then (StaleRevision(s.revision), s)
        else (if ending == Acknowledged then Committed(false) else Failed, Store(s.log + [m], s.revision + 1))
  }

  function Others(s: Store, mutations: seq<Mutation>): Store {
    Store(s.log + mutations, s.revision + |mutations|)
  }

  predicate EndsWith(log: seq<Mutation>, id: string) {
    log != [] && log[|log| - 1].id == id
  }

  /** The bounded retry: stop on the first attempt that is not stale. */
  function Outcome(s: Store, m: Mutation, expected: nat, turns: seq<Turn>): (Decision, Store)
    decreases |turns|
  {
    if turns == [] then (StopStale, s)
    else
      var turn := turns[0];
      var (receipt, after) := AppendTo(Others(s, turn.before), m, expected, turn.ending);
      match receipt
      case Committed(_) => (if turn.projected then Continue else StopNotProjected, after)
      case StaleRevision(actual) => Outcome(after, m, actual, turns[1..])
      case _ =>
        var found := Others(after, turn.between);
        (if turn.readable && EndsWith(found.log, m.id) then Continue else StopFailed, found)
  }

  const ATTEMPTS: nat := 3

  method CommitOrStop(c: Checkpoint, m: Mutation, expectedRevision: nat, turns: seq<Turn>) returns (d: Decision)
    requires |turns| == ATTEMPTS
    modifies c
    ensures (d, Store(c.log, c.revision)) == Outcome(Store(old(c.log), old(c.revision)), m, expectedRevision, turns)
  {
    var expected := expectedRevision;
    var i := 0;
    while i < ATTEMPTS
      invariant 0 <= i <= ATTEMPTS
      invariant Outcome(Store(c.log, c.revision), m, expected, turns[i..])
                == Outcome(Store(old(c.log), old(c.revision)), m, expectedRevision, turns)
    {
      var turn := turns[i];
      assert turns[i..][0] == turn && turns[i..][1..] == turns[i + 1..];
      c.Advance(turn.before);
      var receipt := c.Append(m, expected, turn.ending);
      if receipt.Committed? {
        return if turn.projected then Continue else StopNotProjected;
      }
      if !receipt.StaleRevision? {
        c.Advance(turn.between);
        return if turn.readable && c.LastCommitted() == Some(m.id) then Continue else StopFailed;
      }
      expected := receipt.actual;
      i := i + 1;
    }
    assert turns[ATTEMPTS..] == [];
    return StopStale;
  }

  // ----- what one append does -----

  function Occurrences(log: seq<Mutation>, id: string): nat {
    multiset(Ids(log))[id]
  }

  lemma OccurrencesConcat(a: seq<Mutation>, b: seq<Mutation>, id: string)
    ensures Occurrences(a + b, id) == Occurrences(a, id) + Occurrences(b, id)
    ensures Occurrences(b, id) == 0 <==> id !in Ids(b)
  {
    assert Ids(a + b) == Ids(a) + Ids(b);
  }

  /** An append adds a new id once or leaves the log alone, and never adds to an id already there. */
  lemma AppendAddsOnce(s: Store, m: Mutation, expected: nat, ending: Ending, id: string)
    ensures var (receipt, after) := AppendTo(s, m, expected, ending);
            && Occurrences(after.log, id) == Occurrences(s.log, id) + (if after == s || id != m.id then 0 else 1)
            && (after != s ==>
                  && Occurrences(s.log, m.id) == 0 && expected == s.revision && ending != NotWritten
                  && after == Store(s.log + [m], s.revision + 1))
            && (receipt.Committed? && !receipt.idempotent ==> after != s)
            && (receipt == Conflict || (receipt.Committed? && receipt.idempotent) ==> Occurrences(s.log, m.id) > 0)
            && (receipt == Failed ==> (after != s <==> ending == LostAcknowledgement))
  {
    OccurrencesConcat(s.log, [m], id);
    OccurrencesConcat([], s.log, m.id);
    assert Occurrences([m], m.id) == 1;
    assert forall id :: id != m.id ==> Occurrences([m], id) == 0;
    hide Occurrences;
  }

  /** What an append that reaches the store answers: known mutations by their members, new ones by the revision. */
  lemma AppendAnswers(s: Store, m: Mutation, expected: nat, ending: Ending)
    requires ending != NotWritten
    ensures var receipt := AppendTo(s, m, expected, ending).0;
            && (receipt == Conflict ==> exists x :: x in s.log && x.id == m.id && x.members != m.members)
            && (receipt == Committed(true) ==> exists x :: x in s.log && x.id == m.id && x.members == m.members)
            && (receipt == Conflict || receipt == Committed(true) <==> m.id in Ids(s.log))
            && (receipt.StaleRevision? <==> m.id !in Ids(s.log) && expected != s.revision)
            && (receipt.StaleRevision? ==> receipt.actual == s.revision)
            && (receipt == Committed(false) <==>
                  m.id !in Ids(s.log) && expected == s.revision && ending == Acknowledged)
  {
    hide Ids;
    var found := Find(s.log, m.id);
    if found.Some? {
      assert found.value in s.log && found.value.id == m.id;
    }
  }

  /** A mutation that nobody disturbs is committed at the first attempt. */
  lemma {:induction false} UndisturbedIsCommitted(s: Store, m: Mutation, turns: seq<Turn>)
    requires turns != [] && turns[0].before == [] && turns[0].ending == Acknowledged && m.id !in Ids(s.log)
    ensures Outcome(s, m, s.revision, turns)
            == (if turns[0].projected then Continue else StopNotProjected, Store(s.log + [m], s.revision + 1))
  {
    assert s.log + [] == s.log;
  }

  /** A mutation whose id is taken by another changes nothing but what others write, and is reported as failed. */
  lemma {:induction false} TakenIdsAreRefused(s: Store, m: Mutation, expected: nat, turns: seq<Turn>)
    requires turns != [] && Find(Others(s, turns[0].before).log, m.id).Some?
    requires Find(Others(s, turns[0].before).log, m.id).value.members != m.members
    requires !EndsWith(s.log + turns[0].before + turns[0].between, m.id)
    ensures Outcome(s, m, expected, turns) == (StopFailed, Others(Others(s, turns[0].before), turns[0].between))
  {
  }

  // ----- at most once -----

  predicate Fresh(id: string, turns: seq<Turn>) {
    forall t :: t in turns ==> id !in Ids(t.before) && id !in Ids(t.between)
  }

  predicate IsPrefix(a: seq<Mutation>, b: seq<Mutation>) {
    |a| <= |b| && b[..|a|] == a
  }

  /** The failed attempt that wrote the mutation and only lost its acknowledgement, if there is one. */
  function LosingTurn(s: Store, m: Mutation, expected: nat, turns: seq<Turn>): (turn: Option<Turn>)
    ensures turn.Some? ==> turn.value in turns && turn.value.ending == LostAcknowledgement
    decreases |turns|
  {
    if turns == [] then None
    else
      var (receipt, after) := AppendTo(Others(s, turns[0].before), m, expected, turns[0].ending);
      match receipt
      case StaleRevision(actual) => LosingTurn(after, m, actual, turns[1..])
      case Failed => if turns[0].ending == LostAcknowledgement then Some(turns[0]) else None
      case _ => None
  }

  lemma {:induction false} LogsOnlyGrow(s: Store, m: Mutation, expected: nat, turns: seq<Turn>)
    ensures IsPrefix(s.log, Outcome(s, m, expected, turns).1.log)
    decreases |turns|
  {
    if turns != [] {
      var (receipt, after) := AppendTo(Others(s, turns[0].before), m, expected, turns[0].ending);
      if receipt.StaleRevision? {
        LogsOnlyGrow(after, m, receipt.actual, turns[1..]);
      }
    }
  }

  /**
   A fresh mutation enters the log at most once, however many attempts are allowed: exactly once on
   `Continue`, never when every attempt was stale, and after a failure exactly when the acknowledgement was lost.
   */
  lemma {:induction false} CommitsAtMostOnce(s: Store, m: Mutation, expected: nat, turns: seq<Turn>)
    requires Fresh(m.id, turns) && Occurrences(s.log, m.id) == 0
    ensures var (d, t) := Outcome(s, m, expected, turns);
            && Occurrences(t.log, m.id) <= 1
            && (d == Continue || d == StopNotProjected ==> Occurrences(t.log, m.id) == 1)
            && (d == StopStale ==> Occurrences(t.log, m.id) == 0)
            && (d == StopFailed ==> (Occurrences(t.log, m.id) == 1 <==> LosingTurn(s, m, expected, turns).Some?))
    decreases |turns|
  {
    hide Occurrences;
    if turns != [] {
      var turn := turns[0];
      assert turn in turns;
      var before := Others(s, turn.before);
      var (receipt, after) := AppendTo(before, m, expected, turn.ending);
      OccurrencesConcat(s.log, turn.before, m.id);
      AppendAddsOnce(before, m, expected, turn.ending, m.id);
      OccurrencesConcat(after.log, turn.between, m.id);
      EndsWithOccurs(after.log + turn.between, m.id);
      hide AppendTo, EndsWith;
      if receipt.StaleRevision? {
        StaleAppendsNothing(before, m, expected, turn.ending);
        assert forall t :: t in turns[1..] ==> t in turns;
        CommitsAtMostOnce(after, m, receipt.actual, turns[1..]);
      }
    }
  }

  lemma StaleAppendsNothing(s: Store, m: Mutation, expected: nat, ending: Ending)
    ensures AppendTo(s, m, expected, ending).0.StaleRevision? ==> AppendTo(s, m, expected, ending).1 == s
  {
  }

  lemma EndsWithOccurs(log: seq<Mutation>, id: string)
    ensures EndsWith(log, id) ==> Occurrences(log, id) > 0
  {
    if EndsWith(log, id) {
      assert Ids(log)[|log| - 1] == id;
    }
  }

  /**
   A mutation that was written, but not acknowledged, is reported as failed exactly if after that very attempt the store
   could not be read or another writer had followed.
   */
  lemma {:induction false} StopsIffHidden(s: Store, m: Mutation, expected: nat, turns: seq<Turn>)
    requires LosingTurn(s, m, expected, turns).Some? && Fresh(m.id, turns)
    ensures var turn := LosingTurn(s, m, expected, turns).value;
            Outcome(s, m, expected, turns).0 == if !turn.readable || turn.between != [] then StopFailed else Continue
    decreases |turns|
  {
    var turn := turns[0];
    assert turn in turns;
    var (receipt, after) := AppendTo(Others(s, turn.before), m, expected, turn.ending);
    if receipt.StaleRevision? {
      assert forall t :: t in turns[1..] ==> t in turns;
      StopsIffHidden(after, m, receipt.actual, turns[1..]);
    } else if turn.between != [] {
      var last := |turn.between| - 1;
      assert Ids(turn.between)[last] != m.id;
      assert (after.log + turn.between)[|after.log| + last] == turn.between[last];
    }
  }

  /** Giving up means that another writer committed before every attempt after the first. */
  lemma {:induction false} GivesUpOnlyWhileOthersWrite(s: Store, m: Mutation, expected: nat, turns: seq<Turn>)
    requires Outcome(s, m, expected, turns).0 == StopStale
    ensures forall i :: 1 <= i < |turns| ==> turns[i].before != []
    ensures turns != [] ==> s.revision + |turns[0].before| != expected
    decreases |turns|
  {
    if turns != [] {
      hide Find;
      var (receipt, after) := AppendTo(Others(s, turns[0].before), m, expected, turns[0].ending);
      GivesUpOnlyWhileOthersWrite(after, m, receipt.actual, turns[1..]);
      forall i | 1 <= i < |turns|
        ensures turns[i].before != []
      {
        assert turns[i] == turns[1..][i - 1];
      }
    }
  }

  // ----- the receiver -----

  /**
   A datagram, or a gap, with the mutation it will carry and what happens around it.  A datagram beyond the admission
   budget carries the record of an acquisition gap, and stops the intake even when that is committed.
   */
  datatype Datagram = Datagram(
    mutation: Mutation, others: seq<Mutation>, readable: bool, sameSession: bool, lifecycle: Lifecycle,
    exhausted: bool, turns: seq<Turn>)

  /** What the socket yields; the loop also ends where the list does, when its stop flag is seen. */
  datatype Intake = Received(d: Datagram) | Quiet | Broken(gap: Datagram) | Shutdown

  datatype Progress = Progress(received: nat, committed: nat, stopped: bool)

  /** One datagram: look at the session, then commit unless it is not yet running. */
  function ProcessOne(s: Store, d: Datagram): (Decision, Store, bool) {
    var seen := Others(s, d.others);
    if !d.readable || !d.sameSession then (StopFailed, seen, false)
    else if d.lifecycle == Ready then (Continue, seen, false)
    else if d.lifecycle != Running then (StopFailed, seen, false)
    else
      var (decision, after) := Outcome(seen, d.mutation, seen.revision, d.turns);
      (Exhausting(d, decision), after, decision == Continue)
  }

  /** The session takes evidence from the receiver: it could be read, is the receiver's and runs. */
  ghost predicate Serves(d: Datagram) {
    d.readable && d.sameSession && d.lifecycle == Running
  }

  /** Some other writer commits this mutation in one of the turns. */
  ghost predicate WrittenByOthers(turns: seq<Turn>, m: Mutation) {
    exists t :: t in turns && (m in t.before || m in t.between)
  }

  lemma {:induction false} RetriesDoNotExhaust(s: Store, m: Mutation, expected: nat, turns: seq<Turn>)
    ensures Outcome(s, m, expected, turns).0 != StopExhausted
    decreases |turns|
  {
    if turns != [] {
      var (receipt, after) := AppendTo(Others(s, turns[0].before), m, expected, turns[0].ending);
      if receipt.StaleRevision? {
        RetriesDoNotExhaust(after, m, receipt.actual, turns[1..]);
      }
    }
  }

  /** The retry brings nothing into the log but the mutation and what others write meanwhile. */
  lemma {:induction false} OutcomeBrings(s: Store, m: Mutation, expected: nat, turns: seq<Turn>, x: Mutation)
    ensures x in Outcome(s, m, expected, turns).1.log ==> x in s.log || x == m || WrittenByOthers(turns, x)
    decreases |turns|
  {
    if turns != [] {
      var turn := turns[0];
      assert turn in turns && forall t :: t in turns[1..] ==> t in turns;
      var (receipt, after) := AppendTo(Others(s, turn.before), m, expected, turn.ending);
      if receipt.StaleRevision? {
        OutcomeBrings(after, m, receipt.actual, turns[1..], x);
      }
    }
  }

  lemma {:induction false} ContinuedIsCommitted(s: Store, m: Mutation, expected: nat, turns: seq<Turn>)
    ensures Outcome(s, m, expected, turns).0 == Continue || Outcome(s, m, expected, turns).0 == StopNotProjected ==>
              m.id in Ids(Outcome(s, m, expected, turns).1.log)
    decreases |turns|
  {
    if turns != [] {
      var (receipt, after) := AppendTo(Others(s, turns[0].before), m, expected, turns[0].ending);
      if receipt.StaleRevision? {
        ContinuedIsCommitted(after, m, receipt.actual, turns[1..]);
      } else if receipt.Committed? {
        CommittedIsThere(Others(s, turns[0].before), m, expected, turns[0].ending);
      } else {
        var log := after.log + turns[0].between;
        assert EndsWith(log, m.id) ==> Ids(log)[|log| - 1] == m.id;
      }
    }
  }

  lemma CommittedIsThere(s: Store, m: Mutation, expected: nat, ending: Ending)
    ensures var (receipt, after) := AppendTo(s, m, expected, ending);
            receipt.Committed? ==> m.id in Ids(after.log)
  {
    assert Ids(s.log + [m])[|s.log|] == m.id;
  }

  /** What a datagram can bring into the log: others' mutations, and its own if the session takes evidence. */
  ghost predicate Brings(d: Datagram, taken: bool, x: Mutation) {
    x in d.others || (taken && (x == d.mutation || WrittenByOthers(d.turns, x)))
  }

  function Exhausting(d: Datagram, decision: Decision): Decision {
    if d.exhausted && decision == Continue then StopExhausted else decision
  }

  method Process(c: Checkpoint, d: Datagram) returns (decision: Decision, counted: bool)
    requires |d.turns| == ATTEMPTS
    modifies c
    ensures (decision, Store(c.log, c.revision), counted) == ProcessOne(Store(old(c.log), old(c.revision)), d)
    ensures !Serves(d) ==>
              && c.log == old(c.log) + d.others && c.revision == old(c.revision) + |d.others| && !counted
              && decision == if d.readable && d.sameSession && d.lifecycle == Ready then Continue else StopFailed
    ensures Serves(d) ==> (decision == StopExhausted <==> counted && d.exhausted)
    ensures Serves(d) ==> (decision == Continue <==> counted && !d.exhausted)
    ensures counted ==> d.mutation.id in Ids(c.log)
    ensures forall x :: x in c.log ==> x in old(c.log) || Brings(d, Serves(d), x)
  {
    c.Advance(d.others);
    if !d.readable || !d.sameSession {
      return StopFailed, false;
    }
    if d.lifecycle == Ready {
      return Continue, false;
    }
    if d.lifecycle != Running {
      return StopFailed, false;
    }
    ghost var seen := Store(c.log, c.revision);
    decision := CommitOrStop(c, d.mutation, c.revision, d.turns);
    forall x | x in c.log
      ensures x in old(c.log) || Brings(d, true, x)
    {
      OutcomeBrings(seen, d.mutation, seen.revision, d.turns, x);
    }
    ContinuedIsCommitted(seen, d.mutation, seen.revision, d.turns);
    RetriesDoNotExhaust(seen, d.mutation, seen.revision, d.turns);
    counted := decision == Continue;
    if d.exhausted && decision == Continue {
      decision := StopExhausted;
    }
  }

  /** A broken socket: a running session gets a record of the gap, if it can be written. */
  function GapOf(s: Store, d: Datagram): (Store, bool) {
    var seen := Others(s, d.others);
    if !d.readable || d.lifecycle != Running then (seen, false)
    else var (decision, after) := Outcome(seen, d.mutation, seen.revision, d.turns); (after, decision == Continue)
  }

  method RecordReceiverGap(c: Checkpoint, d: Datagram) returns (counted: bool)
    requires |d.turns| == ATTEMPTS
    modifies c
    ensures (Store(c.log, c.revision), counted) == GapOf(Store(old(c.log), old(c.revision)), d)
    ensures !(d.readable && d.lifecycle == Running) ==>
              c.log == old(c.log) + d.others && c.revision == old(c.revision) + |d.others| && !counted
    ensures counted ==> d.mutation.id in Ids(c.log)
    ensures forall x :: x in c.log ==> x in old(c.log) || Brings(d, d.readable && d.lifecycle == Running, x)
  {
    c.Advance(d.others);
    if !d.readable || d.lifecycle != Running {
      return false;
    }
    ghost var seen := Store(c.log, c.revision);
    var decision := CommitOrStop(c, d.mutation, c.revision, d.turns);
    forall x | x in c.log
      ensures x in old(c.log) || Brings(d, true, x)
    {
      OutcomeBrings(seen, d.mutation, seen.revision, d.turns, x);
    }
    ContinuedIsCommitted(seen, d.mutation, seen.revision, d.turns);
    counted := decision == Continue;
  }

  /** One turn of the loop. */
  function TakeIn(s: Store, p: Progress, x: Intake): (Store, Progress) {
    match x
    case Quiet => (s, p)
    case Shutdown => (s, p.(stopped := true))
    case Broken(gap) =>
      var (after, counted) := GapOf(s, gap);
      (after, Progress(p.received, p.committed + (if counted then 1 else 0), true))
    case Received(d) =>
      var (decision, after, counted) := ProcessOne(s, d);
      (after, Progress(p.received + 1, p.committed + (if counted then 1 else 0), decision != Continue))
  }

  /** The loop over what the socket yields, until something stops the intake. */
  function Receive(s: Store, p: Progress, xs: seq<Intake>): (Store, Progress)
    decreases |xs|
  {
    if xs == [] || p.stopped then (s, p)
    else
      var (after, next) := TakeIn(s, p, xs[0]);
      Receive(after, next, xs[1..])
  }

  function DatagramOf(x: Intake): Option<Datagram> {
    match x
    case Received(d) => Some(d)
    case Broken(gap) => Some(gap)
    case _ => None
  }

  /** What an intake can bring into the log: a datagram's own mutation only if its session takes evidence. */
  ghost predicate IntakeBrings(x: Intake, m: Mutation) {
    match x
    case Received(d) => Brings(d, Serves(d), m)
    case Broken(gap) => Brings(gap, gap.readable && gap.lifecycle == Running, m)
    case _ => false
  }

  function Datagrams(xs: seq<Intake>): nat {
    if xs == [] then 0 else (if xs[0].Received? then 1 else 0) + Datagrams(xs[1..])
  }

  /** A reception that nothing stopped has received every datagram, and no reception receives more. */
  lemma {:induction false} ReceivedAreDatagrams(s: Store, p: Progress, xs: seq<Intake>)
    requires !p.stopped
    ensures var q := Receive(s, p, xs).1;
            && p.received <= q.received <= p.received + Datagrams(xs)
            && (!q.stopped ==> q.received == p.received + Datagrams(xs))
    decreases |xs|
  {
    if xs != [] {
      hide ProcessOne, GapOf;
      var (after, next) := TakeIn(s, p, xs[0]);
      if next.stopped {
        assert Receive(after, next, xs[1..]) == (after, next);
      } else {
        ReceivedAreDatagrams(after, next, xs[1..]);
      }
    }
  }

  method ReceiverLoop(c: Checkpoint, xs: seq<Intake>) returns (p: Progress)
    requires forall x :: x in xs && DatagramOf(x).Some? ==> |DatagramOf(x).value.turns| == ATTEMPTS
    modifies c
    ensures (Store(c.log, c.revision), p) == Receive(Store(old(c.log), old(c.revision)), Progress(0, 0, false), xs)
    ensures forall m :: m in c.log ==> m in old(c.log) || exists x :: x in xs && IntakeBrings(x, m)
  {
    hide ProcessOne, GapOf, Brings;
    p := Progress(0, 0, false);
    var i := 0;
    assert xs[0..] == xs;
    while i < |xs| && !p.stopped
      invariant 0 <= i <= |xs|
      invariant Receive(Store(c.log, c.revision), p, xs[i..])
                  == Receive(Store(old(c.log), old(c.revision)), Progress(0, 0, false), xs)
      invariant forall m :: m in c.log ==> m in old(c.log) || exists x :: x in xs && IntakeBrings(x, m)
    {
      assert xs[i..][0] == xs[i] && xs[i..][1..] == xs[i + 1..];
      var x := xs[i];
      assert x in xs;
      if x.Received? {
        var decision, counted := Process(c, x.d);
        p := Progress(p.received + 1, p.committed + (if counted then 1 else 0), decision != Continue);
      } else if x.Broken? {
        var counted := RecordReceiverGap(c, x.gap);
        p := Progress(p.received, p.committed + (if counted then 1 else 0), true);
      } else if x.Shutdown? {
        p := p.(stopped := true);
      }
      i := i + 1;
    }
  }

  // ----- a whole reception -----

  /** How often the receiver's own mutations are in the log. */
  function Own(log: seq<Mutation>, xs: seq<Intake>): nat {
    if xs == [] then 0
    else
      var d := DatagramOf(xs[0]);
      (if d.Some? then Occurrences(log, d.value.mutation.id) else 0) + Own(log, xs[1..])
  }

  /** What happens around an intake does not use the id. */
  predicate Avoids(x: Intake, id: string) {
    DatagramOf(x).Some? ==> var d := DatagramOf(x).value; id !in Ids(d.others) && Fresh(id, d.turns)
  }

  predicate Carries(x: Intake, id: string) {
    DatagramOf(x).Some? && DatagramOf(x).value.mutation.id == id
  }

  /** Every intake has an id of its own that no other writer uses. */
  ghost predicate AllFresh(xs: seq<Intake>) {
    && (forall i, j, id :: 0 <= i < j < |xs| && Carries(xs[i], id) ==> !Carries(xs[j], id))
    && (forall i, j, id :: 0 <= i < |xs| && 0 <= j < |xs| && Carries(xs[i], id) ==> Avoids(xs[j], id))
  }

  /** A commit touches no other fresh id. */
  lemma {:induction false} OtherIdsUntouched(s: Store, m: Mutation, expected: nat, turns: seq<Turn>, other: string)
    requires other != m.id && Fresh(other, turns)
    ensures Occurrences(Outcome(s, m, expected, turns).1.log, other) == Occurrences(s.log, other)
    decreases |turns|
  {
    if turns != [] {
      var turn := turns[0];
      assert turn in turns;
      var before := Others(s, turn.before);
      var (receipt, after) := AppendTo(before, m, expected, turn.ending);
      OccurrencesConcat(s.log, turn.before, other);
      AppendAddsOnce(before, m, expected, turn.ending, other);
      OccurrencesConcat(after.log, turn.between, other);
      hide Occurrences, AppendTo;
      if receipt.StaleRevision? {
        OtherIdsUntouched(after, m, receipt.actual, turns[1..], other);
      }
    }
  }

  /** One turn of the loop touches no id that it neither carries nor meets. */
  lemma TurnKeepsOthers(s: Store, p: Progress, x: Intake, other: string)
    requires Avoids(x, other) && !Carries(x, other)
    ensures Occurrences(TakeIn(s, p, x).0.log, other) == Occurrences(s.log, other)
  {
    if DatagramOf(x).Some? {
      var d := DatagramOf(x).value;
      var seen := Others(s, d.others);
      OccurrencesConcat(s.log, d.others, other);
      OtherIdsUntouched(seen, d.mutation, seen.revision, d.turns, other);
      hide Occurrences, Outcome;
    }
  }

  /** One turn commits its own fresh mutation at most once, and counts it exactly unless it stops. */
  lemma TurnCountsItsOwn(s: Store, p: Progress, x: Intake)
    requires DatagramOf(x).Some? && Avoids(x, DatagramOf(x).value.mutation.id)
    requires Occurrences(s.log, DatagramOf(x).value.mutation.id) == 0
    ensures var (after, next) := TakeIn(s, p, x);
            var own := Occurrences(after.log, DatagramOf(x).value.mutation.id);
            && own <= 1 && next.committed - p.committed <= own
            && (!next.stopped ==> own == next.committed - p.committed)
  {
    var d := DatagramOf(x).value;
    var seen := Others(s, d.others);
    OccurrencesConcat(s.log, d.others, d.mutation.id);
    CommitsAtMostOnce(seen, d.mutation, seen.revision, d.turns);
    hide Occurrences, Outcome;
  }

  lemma {:induction false} NoneYet(log: seq<Mutation>, xs: seq<Intake>)
    requires forall x, id :: x in xs && Carries(x, id) ==> Occurrences(log, id) == 0
    ensures Own(log, xs) == 0
  {
    if xs != [] {
      hide Occurrences;
      assert xs[0] in xs;
      assert DatagramOf(xs[0]).Some? ==> Carries(xs[0], DatagramOf(xs[0]).value.mutation.id);
      NoneYet(log, xs[1..]);
    }
  }

  /** The rest of a reception keeps the count of an id that it neither carries nor meets. */
  lemma {:induction false} ReceiveKeeps(s: Store, p: Progress, xs: seq<Intake>, other: string)
    requires forall x :: x in xs ==> Avoids(x, other) && !Carries(x, other)
    ensures Occurrences(Receive(s, p, xs).0.log, other) == Occurrences(s.log, other)
    decreases |xs|
  {
    hide Occurrences, TakeIn, Avoids, Carries;
    if xs != [] && !p.stopped {
      assert xs[0] in xs;
      TurnKeepsOthers(s, p, xs[0], other);
      var (after, next) := TakeIn(s, p, xs[0]);
      ReceiveKeeps(after, next, xs[1..], other);
    }
  }

  lemma FreshRest(xs: seq<Intake>)
    requires AllFresh(xs) && xs != []
    ensures AllFresh(xs[1..])
    ensures forall id :: Carries(xs[0], id) ==> Avoids(xs[0], id)
    ensures forall x, id :: x in xs[1..] && Carries(xs[0], id) ==> Avoids(x, id) && !Carries(x, id)
    ensures forall x, id :: x in xs[1..] && Carries(x, id) ==> Avoids(xs[0], id) && !Carries(xs[0], id)
  {
    hide Avoids, Carries;
  }

  /**
   Over a whole reception, every mutation is in the log at most once; the count of committed mutations is the number
   of them in the log, except that a stop may leave one more in the log than was counted.
   */
  lemma {:induction false} ReceptionCountsItsCommits(s: Store, p: Progress, xs: seq<Intake>)
    requires AllFresh(xs) && !p.stopped
    requires forall x, id :: x in xs && Carries(x, id) ==> Occurrences(s.log, id) == 0
    ensures var (t, q) := Receive(s, p, xs);
            && q.committed - p.committed <= Own(t.log, xs) <= q.committed - p.committed + (if q.stopped then 1 else 0)
            && (forall x, id :: x in xs && Carries(x, id) ==> Occurrences(t.log, id) <= 1)
    decreases |xs|
  {
    if xs != [] {
      hide Occurrences, AllFresh, Avoids;
      var x, rest := xs[0], xs[1..];
      assert x in xs && forall y :: y in rest ==> y in xs;
      FreshRest(xs);
      var (after, next) := TakeIn(s, p, x);
      var (t, q) := Receive(after, next, rest);
      if DatagramOf(x).Some? {
        assert Carries(x, DatagramOf(x).value.mutation.id);
        TurnCountsItsOwn(s, p, x);
        ReceiveKeeps(after, next, rest, DatagramOf(x).value.mutation.id);
      }
      forall y, id | y in rest && Carries(y, id)
        ensures Occurrences(after.log, id) == 0
      {
        TurnKeepsOthers(s, p, x, id);
      }
      assert DatagramOf(x).None? ==> TakeIn(s, p, x).1.committed == p.committed;
      hide TakeIn;
      if next.stopped {
        NoneYet(after.log, rest);
      } else {
        ReceptionCountsItsCommits(after, next, rest);
      }
    }
  }
}
