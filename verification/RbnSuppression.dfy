/** The reverse-beacon suppression check: an early-exit scan of slots in start order. */
module RbnSuppression {
  import opened Records

  /** A planned slot with its signal allocation, and its index in the schedule. */
  datatype AllocatedSlot = AllocatedSlot(
    index: nat, startsAt: Instant, antenna: string,
    frequencyHz: nat, variant: string, block: string, position: nat)

  datatype Risk = Risk(leftIndex: nat, rightIndex: nat, separationSeconds: int, frequencyDelta: nat)

  const SUPPRESSION_SECONDS: int := 600
  const SUPPRESSION_HERTZ: int := 300

  function AbsDiff(a: nat, b: nat): nat {
    if a >= b then a - b else b - a
  }

  function Separation(left: AllocatedSlot, right: AllocatedSlot): int {
    NumSeconds(right.startsAt - left.startsAt)
  }

  /** The pair is close enough in time and frequency for a repeat to be suppressed. */
  predicate IsRisky(left: AllocatedSlot, right: AllocatedSlot) {
    0 <= Separation(left, right) < SUPPRESSION_SECONDS
      && AbsDiff(left.frequencyHz, right.frequencyHz) < SUPPRESSION_HERTZ
  }

  function RiskOf(left: AllocatedSlot, right: AllocatedSlot): Risk {
    Risk(left.index, right.index, Separation(left, right), AbsDiff(left.frequencyHz, right.frequencyHz))
  }

  /** A report names the two slots, the whole seconds from one to the other, and the hertz between them. */
  lemma RiskByFields(left: AllocatedSlot, right: AllocatedSlot)
    requires left.startsAt <= right.startsAt
    ensures var r := RiskOf(left, right);
            && r.leftIndex == left.index && r.rightIndex == right.index
            && r.separationSeconds * SECOND <= right.startsAt - left.startsAt < (r.separationSeconds + 1) * SECOND
            && (left.frequencyHz + r.frequencyDelta == right.frequencyHz
                || right.frequencyHz + r.frequencyDelta == left.frequencyHz)
  {
  }

  /** Every risky pair (i, k) with i < k < n, in order of k. */
  function Row(slots: seq<AllocatedSlot>, i: nat, n: nat): seq<Risk>
    requires i < n <= |slots|
  {
    if n == i + 1 then []
    else Row(slots, i, n - 1) + (if IsRisky(slots[i], slots[n - 1]) then [RiskOf(slots[i], slots[n - 1])] else [])
  }

  /** The full quadratic check over all pairs whose first member is below m. */
  function Rows(slots: seq<AllocatedSlot>, m: nat): seq<Risk>
    requires m <= |slots|
  {
    if m == 0 then [] else Rows(slots, m - 1) + Row(slots, m - 1, |slots|)
  }

  ghost predicate InStartOrder(slots: seq<AllocatedSlot>) {
    forall i, j :: 0 <= i < j < |slots| ==> slots[i].startsAt <= slots[j].startsAt
  }

  lemma LaterIsFarther(from: Instant, near: Instant, far: Instant)
    requires near <= far
    ensures NumSeconds(near - from) <= NumSeconds(far - from)
  {
  }

  lemma RowsNext(slots: seq<AllocatedSlot>, i: nat)
    requires i < |slots|
    ensures Rows(slots, i + 1) == Rows(slots, i) + Row(slots, i, |slots|)
    ensures Row(slots, i, i + 1) == []
  {
  }

  // ----- the early-exit scan -----

  /** The risky pairs of slot i with slots from j on, up to the first slot too late to matter. */
  function ScanRow(slots: seq<AllocatedSlot>, i: nat, j: nat): seq<Risk>
    requires i < j <= |slots|
    decreases |slots| - j
  {
    if j == |slots| || Separation(slots[i], slots[j]) >= SUPPRESSION_SECONDS then []
    else (if IsRisky(slots[i], slots[j]) then [RiskOf(slots[i], slots[j])] else []) + ScanRow(slots, i, j + 1)
  }

  /** What the scan reports for the slots below m. */
  function Scan(slots: seq<AllocatedSlot>, m: nat): seq<Risk>
    requires m <= |slots|
  {
    if m == 0 then [] else Scan(slots, m - 1) + ScanRow(slots, m - 1, m)
  }

  /** A risky pair lies behind a slot at which the scan of its row stops. */
  ghost predicate HiddenPair(slots: seq<AllocatedSlot>, i: nat, j: nat, k: nat) {
    i < j < k < |slots| && Separation(slots[i], slots[j]) >= SUPPRESSION_SECONDS && IsRisky(slots[i], slots[k])
  }

  ghost predicate NothingHidden(slots: seq<AllocatedSlot>, i: nat) {
    forall j, k :: !HiddenPair(slots, i, j, k)
  }

  method ValidateRbnSuppression(slots: seq<AllocatedSlot>) returns (risks: seq<Risk>)
    ensures risks == Scan(slots, |slots|)
  {
    hide NumSeconds, AbsDiff;
    risks := [];
    for i := 0 to |slots|
      invariant risks == Scan(slots, i)
    {
      var j := i + 1;
      while j < |slots|
        invariant i < j <= |slots|
        invariant risks + ScanRow(slots, i, j) == Scan(slots, i + 1)
      {
        var separation := Separation(slots[i], slots[j]);
        if separation >= SUPPRESSION_SECONDS {
          break;
        }
        var delta := AbsDiff(slots[i].frequencyHz, slots[j].frequencyHz);
        if separation >= 0 && delta < SUPPRESSION_HERTZ {
          risks := risks + [Risk(slots[i].index, slots[j].index, separation, delta)];
        }
        j := j + 1;
      }
    }
  }

  /** What slot j of row i adds to the full check. */
  function RiskAt(slots: seq<AllocatedSlot>, i: nat, j: nat): seq<Risk>
    requires i < j < |slots|
  {
    if IsRisky(slots[i], slots[j]) then [RiskOf(slots[i], slots[j])] else []
  }

  /** The risky pairs of slot i with slots j to n. */
  function RowFrom(slots: seq<AllocatedSlot>, i: nat, j: nat): seq<Risk>
    requires i < j <= |slots|
    decreases |slots| - j
  {
    if j == |slots| then [] else RiskAt(slots, i, j) + RowFrom(slots, i, j + 1)
  }

  lemma {:induction false} RowSplits(slots: seq<AllocatedSlot>, i: nat, j: nat)
    requires i < j <= |slots|
    ensures Row(slots, i, |slots|) == Row(slots, i, j) + RowFrom(slots, i, j)
    decreases |slots| - j
  {
    if j < |slots| {
      hide IsRisky, RiskOf;
      RowSplits(slots, i, j + 1);
      assert Row(slots, i, j + 1) == Row(slots, i, j) + RiskAt(slots, i, j);
    }
  }

  /** A rest of a row is empty exactly when it holds no risky pair. */
  lemma {:induction false} RowFromEmpty(slots: seq<AllocatedSlot>, i: nat, j: nat)
    requires i < j <= |slots|
    ensures RowFrom(slots, i, j) == [] <==> forall k :: j <= k < |slots| ==> !IsRisky(slots[i], slots[k])
    decreases |slots| - j
  {
    hide IsRisky, RowFrom;
    RowFromNext(slots, i, j);
    if j < |slots| {
      RowFromEmpty(slots, i, j + 1);
    }
  }

  lemma RowFromNext(slots: seq<AllocatedSlot>, i: nat, j: nat)
    requires i < j <= |slots|
    ensures RowFrom(slots, i, j) == [] <==>
              j == |slots| || (!IsRisky(slots[i], slots[j]) && RowFrom(slots, i, j + 1) == [])
  {
    hide IsRisky, RiskOf;
  }

  /**
   A row's scan is as long as its full check exactly when no risky pair of the row is hidden, and then they are
   equal.
   */
  lemma {:induction false} ScanRowIffNothingHidden(slots: seq<AllocatedSlot>, i: nat, j: nat)
    requires i < j <= |slots|
    requires forall k :: i < k < j ==> Separation(slots[i], slots[k]) < SUPPRESSION_SECONDS
    ensures |ScanRow(slots, i, j)| <= |RowFrom(slots, i, j)|
    ensures |ScanRow(slots, i, j)| == |RowFrom(slots, i, j)| <==> NothingHidden(slots, i)
    ensures NothingHidden(slots, i) ==> ScanRow(slots, i, j) == RowFrom(slots, i, j)
    decreases |slots| - j
  {
    hide Separation, RiskOf;
    if j < |slots| {
      if Separation(slots[i], slots[j]) >= SUPPRESSION_SECONDS {
        RowFromEmpty(slots, i, j);
        assert !IsRisky(slots[i], slots[j]);
        if k :| j <= k < |slots| && IsRisky(slots[i], slots[k]) {
          assert HiddenPair(slots, i, j, k);
        }
      } else {
        ScanRowIffNothingHidden(slots, i, j + 1);
      }
    }
  }

  lemma {:induction false} ScanBelow(slots: seq<AllocatedSlot>, m: nat)
    requires m <= |slots|
    ensures |Scan(slots, m)| <= |Rows(slots, m)|
    ensures |Scan(slots, m)| == |Rows(slots, m)| <==> forall i :: 0 <= i < m ==> NothingHidden(slots, i)
    ensures (forall i :: 0 <= i < m ==> NothingHidden(slots, i)) ==> Scan(slots, m) == Rows(slots, m)
  {
    hide NothingHidden, ScanRow, Row, RowFrom;
    if m > 0 {
      ScanBelow(slots, m - 1);
      ScanRowIffNothingHidden(slots, m - 1, m);
      RowSplits(slots, m - 1, m);
      RowStarts(slots, m - 1);
    }
  }

  lemma RowStarts(slots: seq<AllocatedSlot>, i: nat)
    requires i < |slots|
    ensures Row(slots, i, i + 1) == []
  {
  }

  /** The early exit reports what the full check reports exactly when no risky pair lies behind a stop. */
  lemma {:induction false} ScanIffNothingHidden(slots: seq<AllocatedSlot>)
    ensures Scan(slots, |slots|) == Rows(slots, |slots|) <==> forall i, j, k :: !HiddenPair(slots, i, j, k)
  {
    hide Scan, Rows, HiddenPair;
    ScanBelow(slots, |slots|);
    if i, j, k :| HiddenPair(slots, i, j, k) {
      HiddenInRange(slots, i, j, k);
      assert !NothingHidden(slots, i);
    }
  }

  lemma HiddenInRange(slots: seq<AllocatedSlot>, i: nat, j: nat, k: nat)
    requires HiddenPair(slots, i, j, k)
    ensures i < |slots|
  {
  }

  /** In start order nothing is hidden, so the scan is the full check. */
  lemma {:induction false} StartOrderHidesNothing(slots: seq<AllocatedSlot>)
    requires InStartOrder(slots)
    ensures Scan(slots, |slots|) == Rows(slots, |slots|)
  {
    hide Scan, Rows, NumSeconds, AbsDiff, ScanRow;
    ScanIffNothingHidden(slots);
    forall i: nat, j: nat, k: nat
      ensures !HiddenPair(slots, i, j, k)
    {
      if i < j < k < |slots| {
        LaterIsFarther(slots[i].startsAt, slots[j].startsAt, slots[k].startsAt);
      }
    }
  }

  lemma {:induction false} RowMembers(slots: seq<AllocatedSlot>, i: nat, n: nat, r: Risk)
    requires i < n <= |slots|
    ensures r in Row(slots, i, n) <==>
              exists k :: i < k < n && IsRisky(slots[i], slots[k]) && r == RiskOf(slots[i], slots[k])
  {
    hide IsRisky, RiskOf;
    if n > i + 1 {
      RowMembers(slots, i, n - 1, r);
      assert r in Row(slots, i, n) <==>
             r in Row(slots, i, n - 1) || (IsRisky(slots[i], slots[n - 1]) && r == RiskOf(slots[i], slots[n - 1]));
    }
  }

  lemma {:induction false} RowsInclude(slots: seq<AllocatedSlot>, m: nat, i: nat, r: Risk)
    requires i < m <= |slots| && r in Row(slots, i, |slots|)
    ensures r in Rows(slots, m)
  {
    hide Row, Rows;
    RowsNext(slots, m - 1);
    if i < m - 1 {
      RowsInclude(slots, m - 1, i, r);
    }
  }

  /** Nothing is reported but risky pairs. */
  lemma {:induction false} RowsAreRisky(slots: seq<AllocatedSlot>, m: nat, r: Risk) returns (i: nat, k: nat)
    requires m <= |slots| && r in Rows(slots, m)
    ensures i < k < |slots| && IsRisky(slots[i], slots[k]) && r == RiskOf(slots[i], slots[k])
  {
    assert Rows(slots, 0) == [];
    hide Row, Rows;
    RowsNext(slots, m - 1);
    if r in Row(slots, m - 1, |slots|) {
      i := m - 1;
      RowMembers(slots, i, |slots|, r);
      k :| i < k < |slots| && IsRisky(slots[i], slots[k]) && r == RiskOf(slots[i], slots[k]);
    } else {
      i, k := RowsAreRisky(slots, m - 1, r);
    }
  }

  /**
   In start order the reported pairs are exactly those less than 600 seconds and less than
   300 hertz apart, measured without rounding.
   */
  lemma {:induction false} ReportsAreClosePairs(slots: seq<AllocatedSlot>, i: nat, k: nat)
    requires InStartOrder(slots) && i < k < |slots|
    ensures IsRisky(slots[i], slots[k]) <==>
              && slots[k].startsAt - slots[i].startsAt < SUPPRESSION_SECONDS * SECOND
              && -SUPPRESSION_HERTZ < slots[k].frequencyHz - slots[i].frequencyHz < SUPPRESSION_HERTZ
    ensures IsRisky(slots[i], slots[k]) ==> RiskOf(slots[i], slots[k]) in Rows(slots, |slots|)
  {
    hide Row, Rows;
    RowMembers(slots, i, |slots|, RiskOf(slots[i], slots[k]));
    if IsRisky(slots[i], slots[k]) {
      RowsInclude(slots, |slots|, i, RiskOf(slots[i], slots[k]));
    }
  }

  /** Out of start order the scan can miss a pair that the full check reports. */
  lemma OutOfOrderScanMissesAPair()
    ensures var a := AllocatedSlot(0, 0, "A", 7_000_000, "v", "b", 1);
            var slots := [a, a.(index := 1, startsAt := 600 * SECOND), a.(index := 2, startsAt := 0)];
            RiskOf(slots[0], slots[2]) in Rows(slots, 3) && Scan(slots, 3) == []
  {
    var a := AllocatedSlot(0, 0, "A", 7_000_000, "v", "b", 1);
    var slots := [a, a.(index := 1, startsAt := 600 * SECOND), a.(index := 2, startsAt := 0)];
    assert IsRisky(slots[0], slots[2]);
    RowMembers(slots, 0, 3, RiskOf(slots[0], slots[2]));
    RowsInclude(slots, 3, 0, RiskOf(slots[0], slots[2]));
    assert ScanRow(slots, 0, 1) == [];
    assert ScanRow(slots, 1, 3) == [];
    assert ScanRow(slots, 1, 2) == [];
    assert ScanRow(slots, 2, 3) == [];
    hide ScanRow, Rows;
    assert Scan(slots, 0) == [];
    assert Scan(slots, 1) == [];
    assert Scan(slots, 2) == [];
  }

  // ----- from slots in any order -----

  function InsertByStart(sorted: seq<AllocatedSlot>, s: AllocatedSlot): (longer: seq<AllocatedSlot>)
    ensures |longer| == |sorted| + 1
  {
    if sorted == [] || s.startsAt < sorted[0].startsAt then [s] + sorted
    else [sorted[0]] + InsertByStart(sorted[1..], s)
  }

  /** The slots by start time; ties stay in the given order. */
  function ByStart(slots: seq<AllocatedSlot>): seq<AllocatedSlot> {
    if slots == [] then [] else InsertByStart(ByStart(slots[..|slots| - 1]), slots[|slots| - 1])
  }

  lemma {:induction false} InsertedMembers(sorted: seq<AllocatedSlot>, s: AllocatedSlot)
    ensures multiset(InsertByStart(sorted, s)) == multiset(sorted) + multiset{s}
  {
    if sorted != [] && s.startsAt >= sorted[0].startsAt {
      InsertedMembers(sorted[1..], s);
      assert sorted == [sorted[0]] + sorted[1..];
    }
  }

  lemma {:induction false} InsertedInOrder(sorted: seq<AllocatedSlot>, s: AllocatedSlot)
    requires InStartOrder(sorted)
    ensures InStartOrder(InsertByStart(sorted, s))
    ensures InsertByStart(sorted, s)[0].startsAt ==
              if sorted == [] || s.startsAt < sorted[0].startsAt then s.startsAt else sorted[0].startsAt
  {
    if sorted != [] && s.startsAt >= sorted[0].startsAt {
      InsertedInOrder(sorted[1..], s);
      var rest := InsertByStart(sorted[1..], s);
      assert InsertByStart(sorted, s) == [sorted[0]] + rest;
      assert forall j :: 0 <= j < |rest| ==> rest[0].startsAt <= rest[j].startsAt;
      hide InsertByStart;
    }
  }

  lemma {:induction false} SortedByStart(slots: seq<AllocatedSlot>)
    ensures InStartOrder(ByStart(slots)) && multiset(ByStart(slots)) == multiset(slots)
  {
    if slots != [] {
      hide InStartOrder, InsertByStart;
      var front, last := slots[..|slots| - 1], slots[|slots| - 1];
      assert ByStart(slots) == InsertByStart(ByStart(front), last);
      hide ByStart;
      SortedByStart(front);
      InsertedInOrder(ByStart(front), last);
      InsertedMembers(ByStart(front), last);
      assert multiset(slots) == multiset(front) + multiset{last} by {
        assert slots == front + [last];
      }
    }
  }

  /** The check as it is called: the allocations of a plan, sorted first. */
  method ValidateAllocations(slots: seq<AllocatedSlot>) returns (risks: seq<Risk>)
    ensures risks == Rows(ByStart(slots), |ByStart(slots)|)
  {
    hide Rows, ByStart;
    SortedByStart(slots);
    risks := ValidateRbnSuppression(ByStart(slots));
    StartOrderHidesNothing(ByStart(slots));
  }

  /** However the slots are listed, any two less than 600 seconds and less than 300 hertz apart are reported. */
  lemma {:induction false} ClosePairsAreReported(slots: seq<AllocatedSlot>, a: AllocatedSlot, b: AllocatedSlot)
    requires a in slots && b in slots && a != b
    requires -SUPPRESSION_SECONDS * SECOND < a.startsAt - b.startsAt < SUPPRESSION_SECONDS * SECOND
    requires AbsDiff(a.frequencyHz, b.frequencyHz) < SUPPRESSION_HERTZ
    ensures var risks := Rows(ByStart(slots), |ByStart(slots)|);
            RiskOf(a, b) in risks || RiskOf(b, a) in risks
  {
    var sorted := ByStart(slots);
    SortedByStart(slots);
    assert a in multiset(slots) && b in multiset(slots);
    var i :| 0 <= i < |sorted| && sorted[i] == a;
    var k :| 0 <= k < |sorted| && sorted[k] == b;
    hide Rows, ByStart;
    if i < k {
      ReportsAreClosePairs(sorted, i, k);
    } else {
      ReportsAreClosePairs(sorted, k, i);
    }
  }
}
