# Verification model

AntennaBench records what an operator did during an antenna comparison, attributes received
observations to antennas, and reports paired differences. This project models the parts of it
whose correctness rests on state, order or interleaving, and proves what those parts promise.

- **The operator log** (`EventTypes`, `EventShapes`, `EventLog`, `EventLogProperties`,
  `EventMemory`, `OperatorEvents`, `EventRules`, `Trimming`, `AppendGuard`). `EventLog.Replay` says what an append-only log
  means, whatever its record schema: a lifecycle, diagnostics, and one cell per position. The two
  reducers are loops over a set of ids, an index and a slot vector, and are proved to compute that
  meaning. The meaning itself is characterized without reference to the replay: which events are
  accepted, and that the last accepted correction of an accepted event decides its value. What one
  more event does is also stated in terms of its own fields, characters and clock, for every payload
  of both schemas (`EventRules.NextEventV2`, `EventRules.NextEventV3`).
- **The schemas** (`SchemaUpgrade`, `SchemaProjection`, `LegacyProjection`). Upgrading a v2 log
  preserves its meaning; projecting a v3 log to v2 does so under stated conditions; the projection
  into the analysis model, which consumes a map keyed by id, loses and repeats nothing.
- **Alignment and attribution** (`Alignment`, `Attribution`, `AttributionFacts`). Slots are aligned with operator
  facts, observations with slots; a label is never attributed early, and the branch declared
  unreachable in classification is unreachable for every projected log. `AttributionFacts` says from
  the facts and the clock alone what becomes of a slot and of an observation.
- **The paired comparison** (`ComparisonBlocks`, `Comparison`, `ComparisonRun`, `ComparisonKeys`,
  `ComparisonSwap`, `ComparisonOrder`, `ComparisonConservation`, `ComparisonEvidence`, `Bags`,
  `PairedEvidence`,
  `Eligibility`, `StoredSlots`, `StoredSlotExamples`).
  `Comparison.Analyze` says what the comparison is; the loops of `ComparisonRun` compute it. It
  favours neither antenna, ignores the order of its inputs and accounts for every observation.
  `ComparisonEvidence` says exactly which keys have a row, from the fields of the observations.
- **Reporter activity** (`Activity`, `ActivityPairs`, `ActivitySwap`, `ActivityFacts`). Census cycles, cycle rates,
  joint outcomes and their summaries, with the accounts both debug assertions rely on; it favours
  neither antenna either.
- **Signal plans** (`RbnSuppression`, `Counterbalance`). The early-exit scan against the quadratic
  one, and the cross-multiplied balance check against equality of averages.
- **Acquisition** (`Acquisition`, `AcquisitionSafety`, `AcquisitionWindows`, `AcquisitionChoices`,
  `AcquisitionPlanning`). A state machine with
  any number of calls, the foreground lock, an operator who may do anything to any session while
  the lock is free, and a receiver that may write at any time. `AcquisitionChoices` says exactly when
  each step goes on, and to what.
- **Optimistic commit** (`OptimisticCommit`). The bounded retry against other writers and lost
  acknowledgements, and the receiver loop around it.

Instants are integer nanoseconds; `num_seconds` truncates toward zero. Signal ratios are reals;
the exact-duplicate test compares a float type that tells apart what float bits tell apart. A list
that the program keeps sorted by a key is the map from that key to its row. Each distinct message
text of the operator log is a tag.

Two branches of the v2 and v3 reducers cannot be taken, because an earlier check refuses the same
events: the check for a blank correction reason and the fallback for uncorrectable payloads.
`OperatorEvents.CorrectionsHaveReasons`, `OperatorEvents.PlainEventsAreCorrectableV2` and
`OperatorEvents.PlainEventsAreCorrectableV3` show it.
Some promises hold only under a condition, which is stated exactly or shown to matter:

- Lifecycles agree under projection, after every prefix of a log, exactly when no event is unmasked:
  a lifecycle event whose id occurred before only on events that the projection drops, at a
  lifecycle that it would move (`SchemaProjection.LifecyclesAgreeIffNothingUnmasked`). Distinct ids
  are enough, and a two-event log with a repeated id fails.
- The early-exit scan reports what the full check reports exactly when no risky pair lies behind
  the slot at which its row stops (`RbnSuppression.ScanIffNothingHidden`). Start order, which the
  caller establishes, is enough.
- A window is captured at most twice, the second time by a retry of the final window, in every run
  in which no two waiting requests collide (`AcquisitionWindows.WindowsAreCapturedAtMostTwice`), and
  two colliding requests that may still be taken up can always break it
  (`AcquisitionWindows.CollidingRequestsCanRepeat`).
- The comparison expects every paired observation to store a slot. An included observation is sure to
  store one exactly if its id has not come twice before and, being alone with its id, the first planned
  slot that covers it is on its band (`StoredSlots.SlotIsStoredIff`, and `StoredSlots.RowsHaveStoredSlots`
  for rows). Schedules without clashing windows are enough. Two sessions reach the comparison with a row
  that breaks the expectation: in one, overlapping neighbours are left out
  (`StoredSlotExamples.OverlapCanLeaveNoStoredSlot`); in the other an id comes three times, and
  validation names only its first two positions (`StoredSlotExamples.ThirdRepetitionIsNotChecked`).

## Model

| member | source | states |
|---|---|---|
| OperatorEvents.ReduceOperatorEventsV2 | crates/core/src/operator_events.rs:209-333 | the v2 reducer, a loop over ids, index and slots, computes the meaning of the log |
| OperatorEvents.ReduceOperatorEventsV3 | crates/core/src/operator_events.rs:524-660 | the v3 reducer computes the same kind of meaning |
| OperatorEvents.PlainEventsAreCorrectableV2 | crates/core/src/operator_events.rs:301-310 | the fallback for uncorrectable payloads is never reached |
| OperatorEvents.PlainEventsAreCorrectableV3 | crates/core/src/operator_events.rs:628-637 | nor is the v3 fallback |
| OperatorEvents.CorrectionsHaveReasons | crates/core/src/operator_events.rs:272-280 | the later check for a blank reason never fires |
| EventRules.NextEventV2 | crates/core/src/operator_events.rs:213-326 | an event with a new id is refused, with that message, for the first demand its fields do not meet; if they meet all, it makes its lifecycle move, adds evidence with its own fields, or puts a replacement in the place of its target's, as its payload says |
| EventRules.NextEventV3 | crates/core/src/operator_events.rs:531-660 | the same for the v3 payloads, with the events that a running session takes without a trace |
| EventRules.RepeatedEventV2 | crates/core/src/operator_events.rs:219-228 | an event whose id came before only adds the diagnostic that says so |
| EventRules.RepeatedEventV3 | crates/core/src/operator_events.rs:537-546 | likewise for v3 |
| EventRules.ShapeFaultV2 | crates/core/src/operator_events.rs:347-440 | the shape check answers with the first demand on slot, label and texts that fails, labels and texts judged by their characters |
| EventRules.ShapeFaultV3 | crates/core/src/operator_events.rs:707-829 | likewise for v3, with the start of an armed cycle by the clock |
| EventRules.ArmedCycles | crates/core/src/operator_events.rs:722-741 | an armed cycle is accepted without a trace exactly in a running session, with a slot, a proper label, and a start one second into an even minute that is not before the arming; if only the last fails that is the one diagnostic |
| EventShapes.TransitionsAgreeV2 | crates/core/src/operator_events.rs:184-207 | a lifecycle payload moves the lifecycle exactly as the transition table says, with the same refusals |
| EventShapes.TransitionsAgreeV3 | crates/core/src/operator_events.rs:662-685 | likewise for v3 payloads |
| EventLogProperties.ReplayLifecycle | crates/core/src/operator_events.rs:240-251 | the lifecycle is the fold of the accepted transitions of first-seen, well-formed events |
| EventLogProperties.LastCorrectionWins | crates/core/src/operator_events.rs:266-326 | a cell holds a value exactly for an accepted original, its own or that of its last accepted correction; a retraction empties it and a later replacement restores it |
| EventLogProperties.AcceptedIffSilent | crates/core/src/operator_events.rs:219-326 | an event adds no diagnostic exactly when it is accepted, and otherwise exactly one, naming it |
| EventLogProperties.DiagnosticsNameTheRejected | crates/core/src/operator_events.rs:219-326 | the diagnostics name the rejected events, once each, in log order |
| EventLogProperties.DiagnosticsOnlyGrow | crates/core/src/operator_events.rs:146-165 | diagnostics of a prefix are a prefix of the diagnostics, and each further event adds at most one |
| EventLogProperties.CleanIffAllAccepted | crates/core/src/operator_events.rs:219-326 | a log has no diagnostics exactly when every event is accepted |
| EventLogProperties.CleanLogsAreWellFormed | crates/core/src/operator_events.rs:220-228 | such a log has distinct ids and corrections that target earlier originals |
| EventLogProperties.TerminalIsFinal | crates/core/src/operator_events.rs:253-264 | after the end any suffix leaves lifecycle and cells unchanged and is diagnosed event by event |
| EventMemory.OnCorrection | crates/core/src/operator_events.rs:281-299 | a correction in memory overwrites exactly the slot of its target, or is refused exactly when the log has no such target |
| AppendGuard.ValidateOperatorEventAppendV2 | crates/core/src/operator_events.rs:133-167 | which of the three answers the guard gives, and that it accepts exactly an admitted event and returns the meaning of the longer log |
| AppendGuard.AdmitsIffSilent | crates/core/src/operator_events.rs:154-165 | an admitted event adds no diagnostic and any other adds one of its own |
| AppendGuard.GuardedIffClean | crates/core/src/operator_events.rs:133-167 | logs grown only through the guard are exactly the single-session logs without diagnostics |
| AppendGuard.GuardedLogsAreWellFormed | crates/core/src/operator_events.rs:133-167 | they have distinct ids and only backward correction targets |
| AppendGuard.EndedSessionsAreFinal | crates/core/src/operator_events.rs:253-264 | appending to an ended or abandoned session changes neither lifecycle nor view and adds one diagnostic per event |
| SchemaUpgrade.UpgradePreservesMeaning | crates/core/src/v3.rs:719-770 | for every v2 log and initial lifecycle, the upgraded log has the same lifecycle, the same diagnostics in order and exactly the upgraded effective events |
| SchemaUpgrade.UpgradeKeepsShape | crates/core/src/operator_events.rs:707-788 | an upgraded event is refused for its shape with the same message or not at all |
| SchemaProjection.ProjectUndoesUpgrade | crates/core/src/v3.rs:543-641 | projecting an upgraded event gives the original back up to its schema version |
| SchemaProjection.ProjectionKeepsMeaning | crates/core/src/v3.rs:480-483 | a clean v3 log without signal confirmations projects to a clean v2 log with the same lifecycle, whose view is the v3 view with one confirmation more per armed cycle, in place |
| SchemaProjection.DroppingKeepsMemory | crates/core/src/operator_events.rs:577-587 | leaving accepted operational events out of a clean log leaves the reducer's index and slots the same |
| SchemaProjection.LifecyclesAgreeIffNothingUnmasked | crates/core/src/v3.rs:543-602 | the lifecycles agree after every prefix of a log exactly when the projection unmasks no lifecycle event of it |
| SchemaProjection.OneMoreAgrees | crates/core/src/operator_events.rs:531-587 | from agreeing lifecycles one more event keeps agreement exactly when it is not unmasked |
| SchemaProjection.ProjectionKeepsLifecycle | crates/core/src/v3.rs:543-602 | so with distinct ids the lifecycles agree, whatever else the log contains |
| SchemaProjection.RepeatedIdsCanSplitLifecycles | crates/core/src/v3.rs:543-602 | with a repeated id they can differ: a two-event log |
| LegacyProjection.IntoCurrentEvents | crates/core/src/v2.rs:672-696 | the loop that takes entries out of a keyed map yields, at every log position, that position's lifecycle record or current value |
| LegacyProjection.CurrentEvidenceIsEffectiveView | crates/core/src/v2.rs:681-696 | its evidence is the legacy projection of the effective view, in order, for every log, duplicated ids included |
| LegacyProjection.SwitchesAreLabelled | crates/core/src/operator_events.rs:45-50 | every projected antenna switch carries a label |
| LegacyProjection.RecordsStandForEvidence | crates/core/src/operator_events.rs:43-80 | record by record the projected view has the kind, slot, time, label and note of the evidence it stands for |
| LegacyProjection.LifecycleRecords | crates/core/src/v2.rs:672-696 | a started or ended session leaves exactly that record |
| LegacyProjection.SourcesByProvider | crates/core/src/v2.rs:672-696 | the source of such a record follows its provider, source and channel |
| Alignment.AlignmentIgnoresEventOrder | crates/core/src/alignment.rs:127-256 | under v2 an aligned slot is the same for every permutation of the events |
| Alignment.ScheduleAlignmentIgnoresEventOrder | crates/core/src/alignment.rs:78-104 | and so is the whole alignment |
| Alignment.ActualLabelNeedsOneLabelledSwitch | crates/core/src/alignment.rs:127-240 | under v2 a slot has an actual label exactly when a single fact names it and that is a labelled switch |
| AttributionFacts.StatusByFacts | crates/core/src/alignment.rs:127-256 | under v2 a slot is bad, missed, switched in time or late exactly when one fact alone says so, unknown without a fact and in conflict with more; label, usable start and delay are those of the switch |
| AttributionFacts.StatusByFirstFact | crates/core/src/alignment.rs:127-256 | under v1 a bad fact comes before a missed one and that before the first switch, and without any the plan counts |
| AttributionFacts.AnswerByWindow | crates/core/src/alignment.rs:262-395 | the first planned window that covers an observation decides its slot, label, confidence and classification, by band, status and the clock; outside all windows there is none |
| AttributionFacts.ExclusionsByFacts | crates/analysis/src/summary.rs:696-736 | so an observation on the band is excluded for a bad or missed slot, missing or contradictory evidence exactly when the facts say so |
| Attribution.LabelsAreConfirmedFirst | crates/core/src/alignment.rs:262-395 | under v2 an attributed label was confirmed for that slot no later than the observation |
| Attribution.InteriorIffWellInside | crates/core/src/alignment.rs:340-395 | interior and late-switch assignments are exactly those in an established slot, on its band, from its usable start and at least one second more than the boundary before its end |
| Attribution.UnreachableIffUnlabelled | crates/analysis/src/summary.rs:696-736 | exactly when classification would reach its unreachable branch, and exactly when an observation is usable |
| Attribution.LabelledSwitchesAreClassified | crates/analysis/src/summary.rs:732-735 | with labelled switches the branch is never reached |
| Attribution.ProjectedLogsAreClassified | crates/core/src/operator_events.rs:45-50 | for every operator log, whichever of its projected events and whichever slots are kept, the branch is never reached |
| Attribution.Bundle.AnnotateObservations | crates/core/src/normalization.rs:11-21 | everything but the annotation stays, an observation whose id is its own gets its own assignment, annotating again would change nothing, and annotating what is annotated changes nothing |
| Attribution.AnnotatedWithOwnAssignment | crates/core/src/alignment.rs:106-125 | looking assignments up by id annotates an observation with its own assignment, if no other has its id |
| Attribution.AnnotateKeepsIdentity | crates/core/src/alignment.rs:106-125 | only the three annotation fields change, and applying the same assignments again changes nothing |
| Attribution.AnnotationIsIdempotent | crates/core/src/normalization.rs:11-21 | annotating twice equals annotating once |
| ComparisonBlocks.BuildBlocks | crates/analysis/src/comparison.rs:554-594 | cutting each same-band run by twos gives the blocks of the recursive definition |
| ComparisonBlocks.BlocksConserveSlots | crates/analysis/src/comparison.rs:554-594 | every slot lands in exactly one block, in order; blocks are numbered; none crosses a band change; a slot stands alone only where its band ends |
| ComparisonBlocks.EligibleBlocksAreOrdered | crates/analysis/src/comparison.rs:596-625 | a block has an order exactly when it is eligible, which is what the pairing expects |
| ComparisonBlocks.OrderNamesTheFirst | crates/analysis/src/comparison.rs:596-625 | an eligible block holds one slot of each antenna and its order names the one that came first |
| ComparisonBlocks.SortingKeepsSlots | crates/analysis/src/comparison.rs:41-46 | sorting by sequence number and id keeps the slots |
| ComparisonBlocks.SortingIsSequential | crates/analysis/src/comparison.rs:41-46 | and puts them in the order of sequence number, then id |
| ComparisonBlocks.AmbiguousIffShared | crates/analysis/src/comparison.rs:554-560 | the order is ambiguous exactly when any two slots share a sequence number |
| ComparisonBlocks.BlocksAreJudgedByLabels | crates/analysis/src/comparison.rs:596-625 | each verdict on a block is given exactly for its reason, and eligible are the pairs of the two antennas |
| ComparisonRun.AnalyzePairedComparison | crates/analysis/src/comparison.rs:21-365 | the whole comparison, its two unavailable answers included, is what `Compare` says |
| ComparisonRun.ScheduledLabels | crates/analysis/src/comparison.rs:544-552 | the labels are the distinct slot labels in order of first use |
| ComparisonRun.DistinctKeepsLabels | crates/analysis/src/comparison.rs:544-552 | no label is lost and none repeated |
| ComparisonRun.IndexBlocks | crates/analysis/src/comparison.rs:71-81 | the index by slot id answers with the last block that holds the id |
| ComparisonRun.TallyBlocks | crates/analysis/src/comparison.rs:47-66 | the block counters of the analysis |
| ComparisonEvidence.BlocksAreCounted | crates/analysis/src/comparison.rs:47-66 | each block counter is the number of such blocks |
| ComparisonRun.GroupObservations | crates/analysis/src/comparison.rs:84-173 | one pass groups the placed observations in their order and counts exclusions, ambiguous paths and unusable modes |
| ComparisonRun.ResolveGroup | crates/analysis/src/comparison.rs:767-798 | sorting by id and comparing with the head resolves a side by its least observation |
| ComparisonRun.TallyGroup | crates/analysis/src/comparison.rs:208-282 | the counters that one group adds, branch by branch |
| ComparisonRun.PairGroups | crates/analysis/src/comparison.rs:181-316 | one pass over the groups yields the paired rows, the overlap rows, the stratum accumulators and the totals |
| ComparisonRun.BuildPathSummaries | crates/analysis/src/comparison.rs:894-914 | each path's row count and median delta |
| ComparisonRun.BuildStrata | crates/analysis/src/comparison.rs:916-963 | every accumulated or excluded stratum gets its summary, with block and order counts, extremes and median of path medians |
| ComparisonRun.OneBlockOneOrder | crates/analysis/src/comparison.rs:938-947 | counting block and order pairs of one order counts blocks |
| ComparisonBlocks.StateSwaps | crates/analysis/src/comparison.rs:596-625 | exchanging the labels exchanges a block's order and keeps its eligibility |
| ComparisonSwap.SwappingAntennasMirrorsAnalysis | crates/analysis/src/comparison.rs:181-316 | exchanging the antennas negates every delta and median, turns minimum into minus maximum, exchanges all left and right counts and block orders, and changes nothing else |
| ComparisonSwap.FavoursNeitherAntenna | crates/analysis/src/comparison.rs:38-365 | the same from the aligned slots on |
| ComparisonSwap.StratumSwaps | crates/analysis/src/comparison.rs:916-963 | the mirrored stratum summary |
| Bags.SortMirrors | crates/analysis/src/comparison.rs:905-906 | sorting negated values reverses and negates the sorted values |
| Bags.MedianMirrors | crates/analysis/src/comparison.rs:965-972 | the median of the mirrored values is the negated median |
| Bags.MedianIsMiddle | crates/analysis/src/comparison.rs:965-972 | the lower half of the sorted values is at most the median, the upper half at least |
| Bags.SortSorts | crates/analysis/src/comparison.rs:924-932 | sorting orders the values and keeps them, equally often |
| ComparisonOrder.ComparisonIgnoresObservationOrder | crates/analysis/src/comparison.rs:84-173 | any permutation of observations with distinct ids gives the same rows, overlaps, summaries, strata and counts |
| ComparisonOrder.ResolveIsOrderFree | crates/analysis/src/comparison.rs:767-798 | a side resolves alike in every order |
| ComparisonOrder.ConflictIffNotAllAlike | crates/analysis/src/comparison.rs:774-784 | a side is in conflict exactly when some two of its observations are not exact duplicates |
| ComparisonOrder.LeastIsLeast | crates/analysis/src/comparison.rs:771-773 | no observation of the side has a smaller id than its representative |
| ComparisonEvidence.SidesByFields | crates/analysis/src/comparison.rs:767-816 | a side is in conflict exactly when two of its observations differ in time, ratio, a grid, distance or azimuth; otherwise all but one are duplicates, and the one of least id represents them |
| ComparisonEvidence.ContributionsBySides | crates/analysis/src/comparison.rs:208-282 | what a group adds to each counter, by what its two sides hold |
| ComparisonEvidence.RowIffBothSidesSettled | crates/analysis/src/comparison.rs:181-316 | a key has a row exactly when on both sides something is placed, all of it agrees and has a finite ratio; what the row then says |
| ComparisonEvidence.PlacementByFields | crates/analysis/src/comparison.rs:123-173 | where an observation is placed, by its assignment, the last block that holds its slot, and its path |
| ComparisonEvidence.PathByFields | crates/analysis/src/comparison.rs:703-721 | an observation has a path exactly when the station is one of its ends, the other is named and the mode is proper; the direction and stratum it then has |
| ComparisonEvidence.CountsByFields | crates/analysis/src/comparison.rs:96-155 | which observations each counter counts |
| ComparisonEvidence.AvailabilityByRows | crates/analysis/src/comparison.rs:340-346 | pairs are available exactly when there are rows, and otherwise whether a block was eligible |
| ComparisonEvidence.StrataAreThose | crates/analysis/src/comparison.rs:916-923 | the strata are those of the placed and of the excluded observations |
| ComparisonEvidence.StrataByRows | crates/analysis/src/comparison.rs:916-963 | how a stratum's blocks, orders and exclusions are counted |
| ComparisonConservation.SideAccounts | crates/analysis/src/comparison.rs:767-798 | a side without conflict is one representative plus its duplicates; a side in conflict reports nothing else |
| ComparisonConservation.GroupsAccount | crates/analysis/src/comparison.rs:243-282 | over any set of groups finite left evidence is paired, unmatched or faces a conflict, and so on the right, and every observation held is finite, without a ratio, a duplicate or in conflict |
| ComparisonConservation.NoObservationIsLost | crates/analysis/src/comparison.rs:123-173 | every observation that is usable, seated, with a path and a mode is accounted for exactly once in the totals |
| ComparisonConservation.OverlapRowsAddUp | crates/analysis/src/comparison.rs:208-282 | the totals are the sums of the overlap rows, and each stratum's the sums over its paths |
| ComparisonConservation.AnalysisAddsUp | crates/analysis/src/comparison.rs:181-365 | the paired rows are as many as the pairs in the totals, as the sum over all path summaries and as the sum over all strata; the totals are the sums of the overlap rows and of the strata; the block counters agree |
| ComparisonConservation.PairCountsAreRowCounts | crates/analysis/src/comparison.rs:276-316 | overall, on each path and in each stratum the pair count is the number of paired rows there |
| ComparisonConservation.BlockCountersAgree | crates/analysis/src/comparison.rs:47-66 | every block is eligible or invalid and every eligible one has one of the two orders |
| ComparisonConservation.PathCountsAgree | crates/analysis/src/comparison.rs:894-914 | a path summary's row count is its overlap row's pair count |
| ComparisonConservation.StratumCountsAgree | crates/analysis/src/comparison.rs:916-937 | a stratum's row count is its pair count and its path count the number of its paired paths |
| ComparisonConservation.StratumExtremes | crates/analysis/src/comparison.rs:924-958 | a stratum's minimum and maximum are deltas of its rows and bound all of them |
| ComparisonConservation.GroupsHaveAnOrder | crates/analysis/src/comparison.rs:281 | a grouped observation always lies in a block with an order |
| Eligibility.ReportDuplicates | crates/core/src/validation.rs:404-419 | reporting every repetition with the locations of its id names exactly the first two positions of each repeated id |
| Eligibility.ValidateWindows | crates/core/src/validation.rs:421-465 | one pass with the previous slot finds the neighbours that clash, as positions of their ids |
| Eligibility.SlotsStayIff | crates/core/src/validation.rs:421-465 | a slot with an id of its own stays exactly if it starts after its predecessor's end and ends by its successor's start, its antenna is known, its guard leaves time, and it is in sequence |
| Eligibility.IncludedIffOwnOrThird | crates/analysis/src/summary.rs:405-442 | which observations survive the reports: those alone with their id and annotated as regenerated, and those whose id came twice before, whatever they store |
| StoredSlots.AssignedIsFirstPlanned | crates/core/src/alignment.rs:262-395 | the assigned slot is the first planned one that covers the observation, if on its band, whatever the events say |
| StoredSlots.SlotIsStoredIff | crates/analysis/src/comparison.rs:293-300 | exactly when an included observation is sure to store a slot, whatever annotation it came with |
| StoredSlots.IncludedStoresItsSlot | crates/analysis/src/summary.rs:405-442 | an included observation whose id has not come twice before stores the slot of the validated alignment, although mismatches exclude by first position of an id |
| StoredSlots.RowsHaveStoredSlots | crates/analysis/src/comparison.rs:293-300 | whatever slots and events are left out, a row's observation whose id comes at most twice stores a slot exactly if the first planned slot covering it is on its band, and that slot lies in the row's block if it is also the first one kept |
| StoredSlots.CleanSchedulesStoreTheirSlots | crates/analysis/src/comparison.rs:293-300 | if no windows clash, such an observation stores a slot of the row's block |
| StoredSlotExamples.OverlapCanLeaveNoStoredSlot | crates/analysis/src/comparison.rs:293-300 | a session whose overlapping neighbours are left out and whose reports then make a row without a stored slot |
| StoredSlotExamples.ThirdRepetitionIsNotChecked | crates/core/src/validation.rs:988-1009 | a session without overlaps in which the third observation of one id makes a row without a stored slot |
| ComparisonKeys.KeysRoundTrip | crates/analysis/src/comparison.rs:983-1015 | the stratum of an observation decodes from its sort key |
| ComparisonKeys.NormalizedModesStay | crates/analysis/src/model.rs:513-519 | a normalized mode normalizes to itself, as decoding expects |
| ComparisonKeys.RolesReverseDirection | crates/analysis/src/comparison.rs:703-721 | exchanging reporter and heard station keeps the remote station and reverses the direction |
| PairedEvidence.PairedRowsAreAttributed | crates/analysis/src/comparison.rs:123-173 | under v2 both observations of every row were on the row's path, well inside a slot of the row's block, after the antenna of their side was confirmed for that slot |
| PairedEvidence.ComparisonIgnoresEventOrder | crates/core/src/alignment.rs:78-104 | under v2 the comparison does not depend on the order of the operator facts |
| Activity.CoverageFor | crates/analysis/src/activity.rs:511-543 | the coverage is that of a covering summary none beats, or unknown without one, with the ids of all that reach it |
| Activity.RankedIdsInOrder | crates/analysis/src/activity.rs:524-542 | those ids are in order and name exactly the covering summaries of that rank |
| Activity.CombinedRankIsLeast | crates/analysis/src/activity.rs:545-571 | combined coverage has the smaller rank |
| Activity.CollectHeard | crates/analysis/src/activity.rs:60-98 | the strata and the remote stations heard per stratum and slot are those of the usable observations |
| Activity.CycleIndex | crates/analysis/src/activity.rs:167-177 | each census key gets one cycle, and the index given is in range and leads to it |
| Activity.CensusFor | crates/analysis/src/activity.rs:138-182 | which coverage a cycle gets, and that a census index goes with known coverage |
| Activity.RateCycles | crates/analysis/src/activity.rs:110-214 | every stratum has one row, in order, for every slot of its band and direction, whose heard reporters are the intersection with the census |
| Activity.RatesAreFractions | crates/analysis/src/activity.rs:581-583 | a rate exists exactly if someone was active, and lies between zero and one |
| ActivityFacts.RatedByEvidence | crates/analysis/src/activity.rs:99-130 | a stratum is rated in exactly the cycles of its band whose declared direction, or without one whose only observed direction, is its own |
| ActivityFacts.RatedCyclesAre | crates/analysis/src/activity.rs:110-130 | the rated rows are those of every stratum heard and every cycle in which it is rated |
| ActivityFacts.WsprByLetters | crates/analysis/src/activity.rs:138-182 | a census is only sought for WSPR, whatever its case |
| ActivityFacts.TimelineByBlocks | crates/analysis/src/activity.rs:131-137 | a cycle stands in the first block that holds its slot, on the side of its label |
| ActivityFacts.CoverageBySummaries | crates/analysis/src/activity.rs:511-543 | the coverage is the best that a summary of the cycle's time and band states |
| ActivityFacts.CombinedIsTheWorse | crates/analysis/src/activity.rs:545-571 | combined coverage is the worse of the two, the left one if neither is |
| ActivityPairs.PairsAccount | crates/analysis/src/activity.rs:235-306 | in a paired row the four outcomes partition the common receivers, the heard counts are the intersections, and the coverage has the smaller rank |
| ActivityPairs.HeardAreIntersections | crates/analysis/src/activity.rs:236-282 | the common receivers heard by a side are those of the two outcomes that say so |
| ActivityFacts.PairsByReceivers | crates/analysis/src/activity.rs:235-306 | each common receiver's outcome says on which sides it heard and its grid is the one not contradicted; the counts are the sizes of these groups and the rates theirs |
| ActivityFacts.PairsByRates | crates/analysis/src/activity.rs:216-306 | the pairs are exactly those of an eligible block and a stratum of its band with a rate on both sides, made of the first such rates |
| ActivityFacts.TotalsAreSums | crates/analysis/src/activity.rs:330-363 | every total of a summary is the sum over its rows |
| ActivityFacts.SummaryRates | crates/analysis/src/activity.rs:364-386 | a summary's detection rates are those of its sums |
| ActivityPairs.PairRates | crates/analysis/src/activity.rs:216-306 | the rows pair, for each eligible block and stratum of its band, the first left and first right rate |
| ActivityPairs.AllPairsAccount | crates/analysis/src/activity.rs:283-286 | so the first debug assertion holds in every row |
| ActivityPairs.SummarizeRows | crates/analysis/src/activity.rs:330-387 | one pass over a stratum's rows gives its summary |
| ActivityPairs.SummarizeJointOutcomes | crates/analysis/src/activity.rs:318-388 | every stratum with rows is summarized over exactly its rows |
| ActivityPairs.TotalsAccount | crates/analysis/src/activity.rs:342-363 | the second debug assertion holds, orders add up to the blocks, and unique receivers do not exceed opportunities |
| ActivityPairs.CoverageIsPoorest | crates/analysis/src/activity.rs:332-343 | a summary's coverage has the least rank among its rows |
| ActivityPairs.SummariesConserveRows | crates/analysis/src/activity.rs:321-327 | the summaries' opportunities add up to the rows' |
| ActivityPairs.AnalyzeReporterActivity | crates/analysis/src/activity.rs:27-316 | without records and directions the empty default; otherwise strata in the order of their keys, a sound analysis, and census cycles indexed one to one |
| ActivityPairs.ListStrata | crates/analysis/src/activity.rs:110 | every stratum once, in the order of the sort keys |
| ActivityFacts.StrataByKey | crates/analysis/src/activity.rs:605-668 | strata are listed by direction, longer waves first, then by mode, kind and source |
| ActivityPairs.SummariesAccount | crates/analysis/src/activity.rs:360-386 | over rows that account, a summary's outcomes partition its opportunities, its coverage is the poorest of its rows and both detection rates are fractions |
| ActivitySwap.ActivityFavoursNeitherAntenna | crates/analysis/src/activity.rs:216-388 | naming the antennas the other way round exchanges one-sided outcomes, heard counts, rates, slots and block orders in every row and summary, and changes nothing else |
| ActivitySwap.UnknownForOneReason | crates/analysis/src/activity.rs:141-182 | two rates of one stratum without known coverage lack it for the same reason |
| RbnSuppression.ScanIffNothingHidden | crates/core/src/v3.rs:1061-1083 | the early-exit scan reports exactly what the full check reports if and only if no risky pair lies behind a stop |
| RbnSuppression.StartOrderHidesNothing | crates/core/src/v3.rs:1061-1083 | in start order it does |
| RbnSuppression.ValidateAllocations | crates/core/src/v3.rs:898-903 | the check as called, on allocations in any order, reports what the full check of the sorted ones reports |
| RbnSuppression.ReportsAreClosePairs | crates/core/src/v3.rs:1067-1072 | the reported pairs are those under 600 seconds and under 300 hertz apart, without rounding |
| RbnSuppression.RiskByFields | crates/core/src/v3.rs:1061-1083 | a report names the two slots, the whole seconds from one to the other and the hertz between them |
| RbnSuppression.ClosePairsAreReported | crates/core/src/v3.rs:898-903 | however the slots are listed, any two so close are reported |
| RbnSuppression.RowsAreRisky | crates/core/src/v3.rs:1061-1083 | nothing else is reported |
| RbnSuppression.OutOfOrderScanMissesAPair | crates/core/src/v3.rs:900 | out of start order the scan reports nothing where the full check reports a pair |
| Counterbalance.ValidateCounterbalance | crates/core/src/v3.rs:1085-1167 | the diagnostics in order, block reports by block id, and that there are none exactly for a counterbalanced plan |
| Counterbalance.BalancedIffAveragesEqual | crates/core/src/v3.rs:1169-1177 | the cross-multiplied test accepts exactly when all average positions are equal as rationals |
| Counterbalance.CheckBlocks | crates/core/src/v3.rs:1129-1156 | exactly the incomplete blocks are named, once each, in the order of their ids |
| Counterbalance.CompleteByPairs | crates/core/src/v3.rs:1129-1148 | a block passes exactly if it holds every antenna with every variant, no pair twice and no position twice |
| Counterbalance.NoMismatchIffOneFrequency | crates/core/src/v3.rs:1102-1112 | comparing with the last frequency finds a mismatch exactly if a variant has two frequencies |
| Counterbalance.MismatchesByPosition | crates/core/src/v3.rs:1102-1112 | the slots reported are exactly those whose variant had another frequency when it last came |
| Counterbalance.CompleteBlocksCompareSums | crates/core/src/v3.rs:1158-1166 | with no unbalanced block equal averages are equal position sums |
| Counterbalance.MirroredBlocksAreBalanced | crates/core/src/v3.rs:1129-1166 | a schedule of blocks in mirrored pairs around complete blocks has no incomplete block and balanced orders, so it is counterbalanced exactly if each variant keeps one frequency |
| Counterbalance.ReflectionIsComplete | crates/core/src/v3.rs:1129-1156 | the mirror image of a complete block is complete |
| Counterbalance.CrossProductsFit | crates/core/src/v3.rs:1169-1177 | with 32-bit positions and fewer than 65536 slots no cross product overflows 64 bits |
| AcquisitionSafety.RunsAreSafe | apps/desktop/src/wspr_live_acquisition.rs:333-709 | in every run with any number of overlapping calls, evidence is committed only to the active, running, enabled session, not behind the request, under a plan still authorized; the automatic end follows a complete final capture with evidence, at most once per session |
| AcquisitionSafety.BeginKeeps | apps/desktop/src/wspr_live_acquisition.rs:340-503 | deciding what to do keeps the invariant |
| AcquisitionSafety.RespondKeeps | apps/desktop/src/wspr_live_acquisition.rs:738-784 | revalidation after the first wait establishes what the commit relies on, or lets the call go, also when the checkpoint cannot be read |
| AcquisitionSafety.CommitSpotsKeeps | apps/desktop/src/wspr_live_acquisition.rs:562-587 | committing spots under it is guarded, whatever the receiver wrote meanwhile |
| AcquisitionSafety.SurveyKeeps | apps/desktop/src/wspr_live_acquisition.rs:588-606 | revalidation after the second wait, which may also fail to read |
| AcquisitionSafety.CommitCensusKeeps | apps/desktop/src/wspr_live_acquisition.rs:607-655 | committing the census, or its failure, is guarded |
| AcquisitionSafety.ConcludeKeeps | apps/desktop/src/wspr_live_acquisition.rs:656-695 | only a complete final capture with evidence, read again, goes on to the end |
| AcquisitionSafety.EndKeeps | apps/desktop/src/wspr_live_acquisition.rs:1053-1127 | the end appends one event to a running session only |
| AcquisitionSafety.OperatorKeeps | apps/desktop/src/open_session/state.rs:79-121 | whatever the operator does while the lock is free keeps the invariant |
| AcquisitionWindows.CapturedThroughNeverDecreases | apps/desktop/src/wspr_live_acquisition.rs:1165-1197 | in every run the captured-through bound never decreases |
| AcquisitionWindows.WindowsAreCapturedAtMostTwice | apps/desktop/src/wspr_live_acquisition.rs:384-417 | if no two waiting requests collide, no window is captured automatically more than twice, and the second time only by an explicit retry asked for the last captured window when everything was captured and nothing created |
| AcquisitionWindows.CollidingRequestsCanRepeat | apps/desktop/src/wspr_live_acquisition.rs:506-588 | two colliding requests that may still be taken up can continue to a capture that is neither a first one nor such a retry |
| AcquisitionWindows.OverlappingCallsRepeatAWindow | apps/desktop/src/wspr_live_acquisition.rs:384-417 | a run from the start in which two calls capture one window without a retry |
| AcquisitionWindows.RequestsAreAuthorized | apps/desktop/src/wspr_live_acquisition.rs:340-503 | what a request rests on: an authorized, due, uncaptured window after the minimum interval, or an explicit retry of the last captured one once everything is captured and nothing was created |
| AcquisitionChoices.LatestDueIsRequested | apps/desktop/src/wspr_live_acquisition.rs:465-503 | while a window is uncaptured a request is sent exactly if the interval has passed, a plan is due and no failure of the latest stands, and it is for a due plan than which none ends later |
| AcquisitionChoices.CapturedSessionsRetryOrEnd | apps/desktop/src/wspr_live_acquisition.rs:397-464 | once all is captured, exactly when the last window is retried, when the session goes on to its end, and when nothing is done |
| AcquisitionChoices.NothingFoundNothingDone | apps/desktop/src/wspr_live_acquisition.rs:340-383 | a call does nothing unless it finds an active, readable, running, enabled and plannable session |
| AcquisitionChoices.ReachedIffCapturedTo | apps/desktop/src/wspr_live_acquisition.rs:1165-1197 | the captured bound reaches an instant exactly if an automatic record, or a manual one taken five minutes late, does |
| AcquisitionChoices.ResponsesAreTakenIff | apps/desktop/src/wspr_live_acquisition.rs:738-784 | exactly when an arrived response is taken, and that one that did not arrive is remembered |
| AcquisitionChoices.CensusIsTakenIff | apps/desktop/src/wspr_live_acquisition.rs:588-606 | exactly when a census is taken |
| AcquisitionChoices.SpotsAreWrittenIff | apps/desktop/src/wspr_live_acquisition.rs:562-587 | exactly when spots are written, as which record, and which failures are remembered |
| AcquisitionChoices.CensusIsWrittenIff | apps/desktop/src/wspr_live_acquisition.rs:607-655 | exactly when a census record is written, and when the failure is forgotten |
| AcquisitionChoices.CallsGoOnToEndIff | apps/desktop/src/wspr_live_acquisition.rs:656-695 | exactly when a call goes on to end the session |
| AcquisitionChoices.SessionsAreEndedIff | apps/desktop/src/wspr_live_acquisition.rs:1053-1127 | exactly when the end is written, and what is remembered |
| Acquisition.FinalCaptureHasAPlan | apps/desktop/src/wspr_live_acquisition.rs:418-425 | once nothing is pending a complete final capture has a captured plan, as the program expects: the last one authorized, whatever the planner |
| AcquisitionPlanning.CompletedSlots | crates/wsjtx/src/wspr_live.rs:395-406 | the two ways a confirmation completes a slot give the completed slots |
| AcquisitionPlanning.Window | crates/wsjtx/src/wspr_live.rs:361-369 | one pass over the schedule finds the window's start and bands |
| AcquisitionPlanning.QueriesStartWithTheMinute | crates/wsjtx/src/wspr_live_alignment.rs:8-15 | a slot that starts with a cycle is asked for from the even minute before, any other from its start |
| AcquisitionPlanning.PlanSpansTheEndedSlots | crates/wsjtx/src/wspr_live.rs:341-383 | when there is a plan; its window and bands take in every slot that ended by the window's end and come from such slots only, and it is due five minutes later |
| AcquisitionPlanning.NothingPendingIffAllCaptured | apps/desktop/src/wspr_live_acquisition.rs:392-396 | nothing is pending exactly when every completed slot, as planned, had ended by the captured bound |
| OptimisticCommit.Checkpoint.Append | crates/storage/src/live.rs:1001-1095 | an append fails before or after its checks, is idempotent, conflicts with other members of its id, refuses a stale revision, or writes once, acknowledged or not |
| OptimisticCommit.AppendAnswers | crates/storage/src/live.rs:1001-1026 | exactly when an append that reaches the store is idempotent, a conflict, stale or written |
| OptimisticCommit.AppendAddsOnce | crates/storage/src/live.rs:1001-1095 | an append adds a new id once, at the expected revision, or leaves the log alone |
| OptimisticCommit.CommitOrStop | apps/desktop/src/wsjtx_session.rs:921-1033 | the three bounded attempts compute the outcome of the retry |
| OptimisticCommit.UndisturbedIsCommitted | apps/desktop/src/wsjtx_session.rs:921-1000 | a new mutation that nobody disturbs is committed at the first attempt |
| OptimisticCommit.TakenIdsAreRefused | apps/desktop/src/wsjtx_session.rs:1008-1023 | one whose id another mutation has is reported as failed and not written |
| OptimisticCommit.CommitsAtMostOnce | apps/desktop/src/wsjtx_session.rs:921-1033 | a fresh mutation enters the log at most once: exactly once on continuing, never if every attempt was stale, and after a failure exactly if the acknowledgement was lost |
| OptimisticCommit.StopsIffHidden | apps/desktop/src/wsjtx_session.rs:1008-1023 | a written mutation whose acknowledgement was lost is reported as failed exactly if after that very attempt another writer followed or the store could not be read |
| OptimisticCommit.GivesUpOnlyWhileOthersWrite | apps/desktop/src/wsjtx_session.rs:1005-1033 | giving up means others committed before every further attempt |
| OptimisticCommit.Process | apps/desktop/src/wsjtx_session.rs:601-755 | one datagram: unless the session is readable, the receiver's and running, nothing is written or counted and only a ready one lets the intake go on; otherwise the log gains nothing but the datagram's mutation and what others write |
| OptimisticCommit.RecordReceiverGap | apps/desktop/src/wsjtx_session.rs:1035-1070 | a broken socket leaves one record of the gap in a readable running session, and writes nothing to any other |
| OptimisticCommit.ReceiverLoop | apps/desktop/src/wsjtx_session.rs:571-598 | the loop passes over quiet reads, and ends at a shutdown, a broken socket or a datagram that stops the intake; whatever it brings into the log came from a session that takes evidence |
| OptimisticCommit.ReceivedAreDatagrams | apps/desktop/src/wsjtx_session.rs:602-608 | a reception that nothing stopped has counted every datagram |
| OptimisticCommit.ReceptionCountsItsCommits | apps/desktop/src/wsjtx_session.rs:571-598 | over a whole reception each mutation is in the log at most once and the committed count is their number, short by at most one after a stop |

## Left out

- Counterbalance.CrossProductsFit: beyond 65535 slots the program's 64-bit products could overflow; the model's numbers do not.
- ComparisonRun.AnalyzePairedComparison: timeline rows and observed path profiles are not part of this model.
- ComparisonRun.GroupObservations: the timeline counters of the same loop are not part of this model.
- ComparisonRun.PairGroups: visits the groups in any order and keeps tallies that the program does not report; timeline marks and path profiles are not part of this model.
- ComparisonOrder.ComparisonIgnoresObservationOrder: excludes observed path profiles, whose representative without a ratio depends on input order.
- StoredSlots.RowsHaveStoredSlots: observations whose id comes three times or more are not covered, because nothing ties what they store to the alignment; SlotIsStoredIff and ThirdRepetitionIsNotChecked say so.
- Eligibility.IncludedIffOwnOrThird: only annotation mismatches and repeated ids are modelled; other reports about observations exclude more.
- PairedEvidence.PairedRowsAreAttributed: exclusions decided by validation enter as a map by position; only annotation mismatches and repeated ids are modelled, in Eligibility.
- Activity.CensusFor: census rows and summaries enter parsed; reading them from adapter records is not part of this model.
- AcquisitionSafety.RunsAreSafe: planning is an arbitrary function of a session's facts, and an operator change is assumed to take the foreground lock, as every such command does.
- AcquisitionPlanning.PlanSpansTheEndedSlots: refusing a callsign while planning is not part of this model.
- OptimisticCommit.Checkpoint.Append: opening the writer, validation, preparation and file rollback of a mutation are one way of not writing it.
- OptimisticCommit.Process: parsing, client filtering and ingest decide which mutation a datagram carries; here it simply carries one with a fresh id.
- OptimisticCommit.ReceiverLoop: the stop flag is the end of the list of intakes; the operational diagnostic of a gap is not part of this model.
- Acquisition is modelled as functions on states rather than as methods that update them, because its steps interleave.
- Operational diagnostics written by a failed commit or a failed end, and errors of the session summary, which change no evidence.
- The v3 projection of slots, rig states and observations, and the repair of confirmed observations; only events are projected.
- The bundle-wide schedule checks besides suppression and counterbalance, signal-state confirmations, and identity validation, which are independent field checks.
- Evidence aggregates, evidence quality and the rest of the eligibility plan, which count and rank without interaction.
- Overflow of instants, and float rounding in medians, rates and averages.
- Analysis budgets, cancellation, message texts beyond their identity, and all I/O: files, network, clocks, windows.
