# transfer_linkage: overlap fixing, transition streams and the transfer network

This project models the core of `transfer_linkage`. The package turns hospital
admission records into a patient transfer network. The project covers three parts.

- **The overlap fixer** (`transfer_linkage/overlap_fixer.py`) is modelled in
  `events.dfy` and `overlap_fixer.dfy`. Each of one subject's stays
  `(facility, start, end)` becomes a start event and an end event. The events are
  sorted under Python's tuple order. A sweep with a stack of suspended facilities
  then emits boundary records, and consecutive records are paired back into stays.
  `slow_break` and `inverse_transform` are methods with loops, each proved equal to
  a specification function (`Run`/`SweepResult` and `Unpair`). The properties are
  proved about those functions.
- **The transition stream** (`transfer_linkage/parse_transitions.py`) is modelled in
  `parse_transitions.dfy`. For each subject it holds the first admission, then one
  admission per following row. A discharge marker comes before the admission when
  the gap since the previous discharge is at least `window` days, and a final
  discharge marker closes the stream. The streams of all subjects are concatenated.
- **The adjacency matrix** (`make_adj` in `transfer_linkage/network_maker.py`) is
  modelled in `network_maker.dfy`. Facilities are numbered in order of first
  appearance. For every pair of consecutive rows of one subject, the sparse matrix
  entry (from, to) goes up by one.

`rows.dfy` holds the table row shared by the last two parts. `options.dfy` holds
`Option`. `overlap_examples.dfy` proves the cases of `tests/test_overlap_fixer.py`
about the model, four inputs on which the source stops with an exception, and
two runs with stays that end on the same day.

Exceptions are modelled as values:

- `OverlapFixer.Failure` names the three places where `clean_overlaps` can raise:
  - the idle-state assertion;
  - `deque.remove` of a facility that is not suspended;
  - the pairing assertion of `inverse_transform`.
- For an empty subject chunk, `parse_indv_transition` raises on its first `next`.
  The model returns `None` there.

The overlap fixer has these proved properties:

- The pairing assertion never fires.
- A sweep that succeeds ends with nothing active, nothing suspended and no skip pending.
- The output stays never overlap.
- On stays that each end no earlier than they start, a result covers exactly the same moments as the input. A moment is covered when some stay has started by it and not yet ended.
- Stays of positive length that do not overlap come back unchanged, including stays that touch (one ends on the day the next starts).
- Cleaning is not always harmless to repeat. `[b 1-5, a 2-5]` with `a` below `b` cleans to `[b 1-2, a 2-5, b 5-5]`, and cleaning that output again raises (the fourth input below).
- `Transform` agrees with Python's `sorted`, because a sorted permutation under a total order is unique.

Four inputs make the source itself raise; all four are proved:

- **`[a 1-10, a 2-5, a 3-6]` raises at the idle-state assertion.** The source keeps a single boolean `cont`, so two restarts of the same facility skip only one end.
- **`[a 1-50, a 2-30, b 25-40]` raises in `deque.remove`.** The skip set by the restart of `a` is used up on the end of `b`. So `b` stays active, and the last end of `a` finds no suspension to remove.
- **`[a 1-1]`, or any single stay that ends on the day it starts, raises at the idle-state assertion.** Its end event `(1, a, 'e')` sorts before its start `(1, a, 's')`, so the first event the sweep meets is an end. The cleaning step upstream drops only stays whose admission is after their discharge, so such stays can reach `clean_overlaps`. A zero-length stay in other input that does not overlap makes the source raise too, for the same reason: the sweep meets one end too many, and stops at the idle-state assertion or in `deque.remove`. Only the lone stay is proved. Inside an overlap a zero-length stay need not raise: `[y 1-10, z 2-10, y 5-5]` with `y` below `z` cleans to `[y 1-2, z 2-5, y 5-10, z 10-10]`.
- **`[b 1-2, a 2-5, b 5-5]` with `a` below `b` raises at the idle-state assertion.** This is what the source returns for `[b 1-5, a 2-5]`. The two ends on day 5 sort `a` first, so the sweep closes `a`, resumes `b` at 5, and then ends `b` at 5, which leaves a zero-length stay `b 5-5`. Cleaning that output again meets its end `(5, b, 'e')` with nothing active.

## Model

| member | source | states |
|---|---|---|
| Events.StrLessTrichotomy | transfer_linkage/overlap_fixer.py:9 | Python string order is total: two strings are equal or one is below the other |
| Events.StrLessTransitive | transfer_linkage/overlap_fixer.py:9 | Python string order is transitive |
| Events.EventLeTotal | transfer_linkage/overlap_fixer.py:9 | any two `(time, id, kind)` tuples are comparable |
| Events.EventLeAntisymmetric | transfer_linkage/overlap_fixer.py:9 | two tuples each at most the other are equal |
| Events.EventLeTransitive | transfer_linkage/overlap_fixer.py:9 | the tuple order is transitive |
| Events.TimesIncreaseSorted | transfer_linkage/overlap_fixer.py:21 | events with strictly increasing times are already in sorted order |
| Events.Insert | transfer_linkage/overlap_fixer.py:9 | inserting keeps every element and adds the new one |
| Events.InsertSorted | transfer_linkage/overlap_fixer.py:9 | inserting into a sorted list keeps it sorted |
| Events.SortEvents | transfer_linkage/overlap_fixer.py:9 | the sorted list is a permutation of the input |
| Events.SortEventsSorted | transfer_linkage/overlap_fixer.py:9 | the sorted list is in ascending tuple order |
| Events.SameHead | transfer_linkage/overlap_fixer.py:9 | two sorted permutations of one another start with the same event |
| Events.SortedCons | transfer_linkage/overlap_fixer.py:9 | an event no greater than the head of a sorted list extends it in front |
| Events.NeighboursSorted | transfer_linkage/overlap_fixer.py:9 | a list whose neighbours are in tuple order is sorted |
| Events.SortedUnique | transfer_linkage/overlap_fixer.py:9 | two sorted permutations of the same events are equal |
| Events.SortEventsIsSorted | transfer_linkage/overlap_fixer.py:9 | any sorted permutation of the input is the model's sort, which is therefore what `sorted` returns |
| Events.SortEventsIdempotent | transfer_linkage/overlap_fixer.py:21 | `times.sort()` on the already sorted output of `transform` changes nothing |
| OverlapFixer.ProjectAt | transfer_linkage/overlap_fixer.py:9 | `Project`, the list comprehension before the sort, gives stay i's start event at position 2i and its end event at position 2i+1 |
| OverlapFixer.ProjectAppend | transfer_linkage/overlap_fixer.py:9 | the events of two stay lists put together are the events of each, put together |
| OverlapFixer.ProjectLength | transfer_linkage/overlap_fixer.py:9 | each stay gives exactly two events |
| OverlapFixer.Transform | transfer_linkage/overlap_fixer.py:8-9 | `transform` returns two events per stay, sorted, as a permutation of the stays' start and end events |
| OverlapFixer.TransformHasBoth | transfer_linkage/overlap_fixer.py:9 | every stay's start event and end event are in the output of `transform` |
| OverlapFixer.InverseTransform | transfer_linkage/overlap_fixer.py:11-18 | the loop returns the stays of consecutive record pairs, or raises when a pair names two facilities |
| OverlapFixer.UnpairProject | transfer_linkage/overlap_fixer.py:11-18 | pairing up the unsorted events of stays gives back the stays |
| OverlapFixer.RemoveFirst | transfer_linkage/overlap_fixer.py:59 | `deque.remove` takes exactly one copy of the facility out and keeps the others |
| OverlapFixer.RemoveFirstAt | transfer_linkage/overlap_fixer.py:59 | the copy `deque.remove` drops is the first (oldest) one, and the rest keep their order |
| OverlapFixer.Step | transfer_linkage/overlap_fixer.py:31-59 | one event keeps the sweep's variables coherent, and every record it emits carries the event's time |
| OverlapFixer.Run | transfer_linkage/overlap_fixer.py:28-59 | the sweep stays coherent, and the only ways it can stop are the idle assertion and `deque.remove` |
| OverlapFixer.RunUnfold | transfer_linkage/overlap_fixer.py:28-29 | the loop pops the first event, handles it, and goes on with the rest |
| OverlapFixer.RunAppend | transfer_linkage/overlap_fixer.py:28-29 | sweeping two event lists one after the other is sweeping the first, then the second from where the first stopped |
| OverlapFixer.SlowBreak | transfer_linkage/overlap_fixer.py:20-61 | the loop over the sorted events returns the records of the sweep, or raises where the sweep fails |
| OverlapFixer.CleanOverlaps | transfer_linkage/overlap_fixer.py:3-6 | `clean_overlaps` is transform, sweep, pair; its output never overlaps, the pairing assertion never fires, and on stays that end no earlier than they start, a result covers exactly the moments the input covers |
| OverlapFixer.IdleCases | transfer_linkage/overlap_fixer.py:31-35 | with nothing active, an end raises and a start opens its facility and records it |
| OverlapFixer.SuspendThenResume | transfer_linkage/overlap_fixer.py:40-56 | a nested stay suspends the active facility at its start and resumes it at its end, leaving the stack as it was |
| OverlapFixer.RestartSkipsNextEnd | transfer_linkage/overlap_fixer.py:36-39 | a second start of the active facility splits its stay and makes the sweep skip that facility's next end |
| OverlapFixer.CloseActive | transfer_linkage/overlap_fixer.py:46-56 | the end of the active facility is recorded, and the most recently suspended facility resumes at the same time |
| OverlapFixer.EndOfSuspended | transfer_linkage/overlap_fixer.py:57-59 | the end of a suspended facility drops its suspension and records nothing; the end of a facility that is not suspended raises |
| OverlapFixer.ProjectTimesIncrease | transfer_linkage/overlap_fixer.py:9 | the events of disjoint stays have strictly increasing times |
| OverlapFixer.OpenThenClose | transfer_linkage/overlap_fixer.py:31-35 | with nothing active, a stay's start and then its end are recorded as they are, and the sweep is idle again |
| OverlapFixer.RunProjected | transfer_linkage/overlap_fixer.py:28-56 | stays met in their own order, one after the other, are recorded unchanged |
| OverlapFixer.HandoverSorted | transfer_linkage/overlap_fixer.py:9 | where one stay ends no later than the next starts, the two boundary events between them are in tuple order; on the same day the lower id comes first |
| OverlapFixer.SequentialTail | transfer_linkage/overlap_fixer.py:9 | the stays after the first of a sequence of touching or separated stays are such a sequence too |
| OverlapFixer.AfterFirstStartHead | transfer_linkage/overlap_fixer.py:9 | the events after the first start begin at the first stay's end |
| OverlapFixer.AfterFirstStartSorted | transfer_linkage/overlap_fixer.py:9 | the events after the first start are in tuple order |
| OverlapFixer.AfterFirstStartPermutation | transfer_linkage/overlap_fixer.py:9 | the events after the first start are the first end and the events of the other stays |
| OverlapFixer.CloseThenOpen | transfer_linkage/overlap_fixer.py:31-35 | an end of the active facility and then a start leave the next facility active with both recorded |
| OverlapFixer.SuspendThenDrop | transfer_linkage/overlap_fixer.py:40-45 | a start of another facility on the day the active one ends suspends it, and its end then drops the suspension; the records are the same as for the other order |
| OverlapFixer.HandoverRun | transfer_linkage/overlap_fixer.py:31-59 | in either order of a handover the sweep records the end and the start and goes on with the next facility |
| OverlapFixer.RunAfterFirstStart | transfer_linkage/overlap_fixer.py:28-59 | after the first start, the sweep of touching or separated stays records every boundary as it is and ends idle |
| OverlapFixer.SequentialSorted | transfer_linkage/overlap_fixer.py:9 | the first start followed by the events after it is in tuple order |
| OverlapFixer.SequentialPermutation | transfer_linkage/overlap_fixer.py:9 | the first start followed by the events after it is a permutation of the stays' events |
| OverlapFixer.TransformSequential | transfer_linkage/overlap_fixer.py:8-9 | `transform` of touching or separated stays is the first start followed by the events after it |
| OverlapFixer.RunSequential | transfer_linkage/overlap_fixer.py:28-59 | the sweep of those events records the stays' own events and ends idle |
| OverlapFixer.SweepSequential | transfer_linkage/overlap_fixer.py:20-61 | `slow_break` on touching or separated stays returns their own start and end events in order |
| OverlapFixer.CleanPassThrough | transfer_linkage/overlap_fixer.py:3-6 | stays of positive length, each ending no later than the next starts, come back from `clean_overlaps` unchanged; stays that touch are included |
| OverlapFixer.PairedAppend | transfer_linkage/overlap_fixer.py:35-56 | appending a start and an end of one facility to paired records keeps them paired |
| OverlapFixer.CloseOpen | transfer_linkage/overlap_fixer.py:46-51 | ending the open facility completes the last pair of records |
| OverlapFixer.OpenAfter | transfer_linkage/overlap_fixer.py:35-45 | a start after complete pairs leaves one open record for the active facility |
| OverlapFixer.StepShaped | transfer_linkage/overlap_fixer.py:31-59 | every case of the sweep keeps the records as complete pairs plus the active facility's open start |
| OverlapFixer.RunShaped | transfer_linkage/overlap_fixer.py:28-59 | the whole sweep keeps that shape |
| OverlapFixer.StepBalance | transfer_linkage/overlap_fixer.py:31-59 | a start opens at most one facility or skip, and an end closes at least one |
| OverlapFixer.RunCloses | transfer_linkage/overlap_fixer.py:28-61 | when the remaining ends can close everything open, a sweep that succeeds ends with nothing open and no skip pending |
| OverlapFixer.NetInsert | transfer_linkage/overlap_fixer.py:9 | inserting an event adds its own balance of ends and starts |
| OverlapFixer.NetSortEvents | transfer_linkage/overlap_fixer.py:9 | sorting keeps the balance of ends and starts |
| OverlapFixer.NetProject | transfer_linkage/overlap_fixer.py:9 | the events of any stays hold as many ends as starts |
| OverlapFixer.RunTimesAscending | transfer_linkage/overlap_fixer.py:28-59 | records are emitted in non-decreasing time order |
| OverlapFixer.UnpairedNoOverlap | transfer_linkage/overlap_fixer.py:11-18 | records in time order pair into stays that each end no earlier than they start and no later than the next one starts |
| OverlapFixer.PairedMatch | transfer_linkage/overlap_fixer.py:16 | records in (start f, end f) pairs pass the pairing assertion |
| OverlapFixer.SweepEndsClosed | transfer_linkage/overlap_fixer.py:20-61 | on the events of any stays, a sweep that succeeds ends closed, with paired records in time order |
| OverlapFixer.CleanNeverMismatches | transfer_linkage/overlap_fixer.py:3-6 | `clean_overlaps` never raises at the pairing assertion, and succeeds exactly when the sweep does |
| OverlapFixer.CleanNoOverlap | transfer_linkage/overlap_fixer.py:3-6 | every result of `clean_overlaps` is free of overlaps |
| OverlapFixer.NetAppend | transfer_linkage/overlap_fixer.py:28-29 | the balance of ends and starts of two event lists put together is the sum of their balances |
| OverlapFixer.NetAfterAppend | transfer_linkage/overlap_fixer.py:28-29 | the same for the events later than a moment `t` |
| OverlapFixer.NetAfterInsert | transfer_linkage/overlap_fixer.py:9 | inserting an event adds its own balance after `t` |
| OverlapFixer.NetAfterSortEvents | transfer_linkage/overlap_fixer.py:9 | sorting keeps the balance after `t` |
| OverlapFixer.NetAfterProject | transfer_linkage/overlap_fixer.py:9 | for stays that end no earlier than they start, the events after `t` hold at least as many ends as starts, and more exactly when some stay spans `t` |
| OverlapFixer.NetAfterAllAbove | transfer_linkage/overlap_fixer.py:28-29 | for events all later than `t`, the balance after `t` is the whole balance |
| OverlapFixer.NetAfterAllUpTo | transfer_linkage/overlap_fixer.py:28-29 | for events all at or before `t`, the balance after `t` is zero |
| OverlapFixer.StepCalm | transfer_linkage/overlap_fixer.py:46-52 | the sweep goes idle only when no skip is pending |
| OverlapFixer.RunCalm | transfer_linkage/overlap_fixer.py:28-59 | the whole sweep keeps that property |
| OverlapFixer.RunDrift | transfer_linkage/overlap_fixer.py:28-59 | along a sweep that succeeds, what is open at the end plus the balance of the events swept is at most what was open at the start |
| OverlapFixer.RunRecordsAfter | transfer_linkage/overlap_fixer.py:28-59 | sweeping events later than `t` keeps the earlier records and adds only records stamped later than `t` |
| OverlapFixer.RunRecordsUpTo | transfer_linkage/overlap_fixer.py:28-59 | sweeping events at or before `t` adds only records stamped at or before `t` |
| OverlapFixer.PairsCover | transfer_linkage/overlap_fixer.py:11-18 | when the first `m` records are stamped at or before `t` and the rest later, some pair spans `t` exactly when `m` is odd |
| OverlapFixer.ActiveAt | transfer_linkage/overlap_fixer.py:20-61 | after the events up to `t`, a sweep that succeeds has a facility active exactly when some input stay spans `t` |
| OverlapFixer.RecordsSplitAt | transfer_linkage/overlap_fixer.py:20-61 | after the events up to `t`, the records emitted so far are stamped no later than `t`, all later records after `t`, and their number is odd exactly when a facility is active |
| OverlapFixer.CleanIsUnpaired | transfer_linkage/overlap_fixer.py:3-6 | a result of `clean_overlaps` is the pairs of the records of a successful sweep, which are even in number |
| OverlapFixer.CoverageAt | transfer_linkage/overlap_fixer.py:3-6 | on stays that end no earlier than they start, a result of `clean_overlaps` spans a moment exactly when some input stay does |
| OverlapFixer.CleanCoverage | transfer_linkage/overlap_fixer.py:3-6 | on such stays, a result of `clean_overlaps` covers the same moments as its input |
| OverlapExamples.CleanVia | transfer_linkage/overlap_fixer.py:3-6 | sorted events that are a permutation of the stays' events and sweep to a closed state decide the result of `clean_overlaps` |
| OverlapExamples.FailVia | transfer_linkage/overlap_fixer.py:3-6 | sorted events that are a permutation of the stays' events and stop the sweep decide the exception of `clean_overlaps` |
| OverlapExamples.SimpleOverlap | tests/test_overlap_fixer.py:4-15 | a stay overlapped by a later one is cut at the later one's start |
| OverlapExamples.ReturningOverlap | tests/test_overlap_fixer.py:17-29 | a stay interrupted by a nested one resumes after it |
| OverlapExamples.MultipleAdmissions | tests/test_overlap_fixer.py:31-39 | two separate stays at one facility come back unchanged |
| OverlapExamples.NestingOverlaps | tests/test_overlap_fixer.py:41-57 | three nested stays and a later one unwind in stack order |
| OverlapExamples.ContinuityCase | tests/test_overlap_fixer.py:59-70 | two overlapping stays at one facility are split where the second one starts |
| OverlapExamples.TripleRestartFails | transfer_linkage/overlap_fixer.py:31-39 | three overlapping stays at one facility make the sweep raise at the idle assertion |
| OverlapExamples.SkipCarriedOverFails | transfer_linkage/overlap_fixer.py:36-59 | a skip set by a restart of `a` swallows the end of `b`, and the last end of `a` raises in `deque.remove` |
| OverlapExamples.ZeroLengthFails | transfer_linkage/overlap_fixer.py:9-33 | a lone stay that ends on the day it starts has its end sorted first, so the sweep raises at the idle assertion |
| OverlapExamples.SameDayEnds | transfer_linkage/overlap_fixer.py:3-6 | `[b 1-5, a 2-5]` with `a` below `b` cleans to `[b 1-2, a 2-5, b 5-5]`, which holds a zero-length stay |
| OverlapExamples.SameDayEndsCleanedAgainFails | transfer_linkage/overlap_fixer.py:9-33 | cleaning that output again raises at the idle assertion |
| OverlapExamples.ZeroLengthInsideOverlap | transfer_linkage/overlap_fixer.py:3-6 | a zero-length stay inside an overlap, `[y 1-10, z 2-10, y 5-5]` with `y` below `z`, cleans without raising to `[y 1-2, z 2-5, y 5-10, z 10-10]` |
| ParseTransitions.ParseIndvTransition | transfer_linkage/parse_transitions.py:4-25 | the generator's output is the first admission, one link per consecutive pair and the last discharge, or nothing for an empty chunk |
| ParseTransitions.Gaps | transfer_linkage/parse_transitions.py:19-23 | there is at most one gap per consecutive pair of rows |
| ParseTransitions.LinksLength | transfer_linkage/parse_transitions.py:16-23 | the loop yields one record per consecutive pair plus one per gap |
| ParseTransitions.IndvShape | transfer_linkage/parse_transitions.py:4-25 | the stream is undefined exactly for an empty chunk; it opens with the first admission, closes with the last discharge, and has between n+1 and 2n records |
| ParseTransitions.GapMarkers | transfer_linkage/parse_transitions.py:19-22 | the expected markers, the earlier row's discharge of every gap in row order, number one per gap |
| ParseTransitions.GapMarkersMembers | transfer_linkage/parse_transitions.py:19-22 | the expected markers are exactly the discharges `(sID, None, Ddate)` of rows that are not followed by a direct transfer |
| ParseTransitions.GapsAntitone | transfer_linkage/parse_transitions.py:19 | a wider window never adds a gap |
| ParseTransitions.SingleFilters | transfer_linkage/parse_transitions.py:14 | a single record is either an admission or a marker |
| ParseTransitions.AdmissionsAppend | transfer_linkage/parse_transitions.py:16-23 | the admissions of two streams put together are those of each, put together |
| ParseTransitions.MarkersAppend | transfer_linkage/parse_transitions.py:16-23 | the discharge markers of two streams put together are those of each, put together |
| ParseTransitions.FiltersOfThree | transfer_linkage/parse_transitions.py:14-25 | the same for three streams |
| ParseTransitions.RowAdmissionsSnoc | transfer_linkage/parse_transitions.py:20 | a row added at the end adds its admission at the end |
| ParseTransitions.RowAdmissionsAppend | transfer_linkage/parse_transitions.py:32 | the admissions of two row lists put together are those of each, put together |
| ParseTransitions.RowAdmissionsCons | transfer_linkage/parse_transitions.py:14 | the admissions of a row list start with its first row's |
| ParseTransitions.LinkAdmissions | transfer_linkage/parse_transitions.py:19-23 | a pair of rows yields the next row's admission and no other admission |
| ParseTransitions.LinkMarkers | transfer_linkage/parse_transitions.py:19-23 | a pair of rows yields no marker for a direct transfer and otherwise exactly the earlier row's discharge `(sID, None, Ddate)` |
| ParseTransitions.LinksAdmissions | transfer_linkage/parse_transitions.py:16-23 | the loop yields the admission of every row after the first, in order |
| ParseTransitions.LinksMarkers | transfer_linkage/parse_transitions.py:16-23 | the loop's markers are the earlier row's discharge of every gap, in row order, one per gap |
| ParseTransitions.IndvAdmissions | transfer_linkage/parse_transitions.py:4-25 | the admission records of a stream are every row's admission, in row order |
| ParseTransitions.IndvMarkersSplit | transfer_linkage/parse_transitions.py:14-25 | a stream's markers are the loop's markers, then the last row's discharge |
| ParseTransitions.IndvMarkers | transfer_linkage/parse_transitions.py:16-25 | a stream's markers are the earlier row's discharge of every gap, in row order, then the last row's discharge: one per gap plus the final one |
| ParseTransitions.ConcatenatedDefined | transfer_linkage/parse_transitions.py:32 | the concatenation is defined exactly when no partition is empty |
| ParseTransitions.ConcatenatedShape | transfer_linkage/parse_transitions.py:32 | the concatenation's length is the sum of the stream lengths, and its admissions are all rows' admissions in partition order |
| ParseTransitions.AllTransitionsShape | transfer_linkage/parse_transitions.py:29-33 | `parse_transitions` (`AllTransitions`) succeeds exactly when there is a partition and none is empty; it then has the total length, and its admissions are all rows' admissions in order |
| Rows.Flatten | transfer_linkage/network_maker.py:11 | every row of every partition is in the flattened table, and every row of the table comes from some partition |
| Rows.Unique | transfer_linkage/network_maker.py:7 | `unique()` holds each value of the column once, and nothing else |
| NetworkMaker.FacilityIds | transfer_linkage/network_maker.py:7 | the `fID` column holds each row's facility at that row's position |
| NetworkMaker.Facilities | transfer_linkage/network_maker.py:7 | the facility list has no repeats, holds the facility of every row, and holds nothing else |
| NetworkMaker.IndexMapBijective | transfer_linkage/network_maker.py:8 | the map `IndexMap` (the dictionary comprehension) numbers exactly the listed facilities 0..n-1, each by its position in the list, with no two sharing a number |
| NetworkMaker.IndexOf | transfer_linkage/network_maker.py:8 | a listed facility is in the map, and its number is its position in the list |
| NetworkMaker.TransfersStep | transfer_linkage/network_maker.py:13-16 | each row adds the pair it closes with the previous row, if any |
| NetworkMaker.TransfersWitness | transfer_linkage/network_maker.py:13-16 | a positive count has a row at `g` directly after a row at `f` |
| NetworkMaker.TransfersCounts | transfer_linkage/network_maker.py:13-16 | every row at `g` directly after a row at `f` is counted |
| NetworkMaker.TransfersPositive | transfer_linkage/network_maker.py:13-16 | a transfer from `f` to `g` is counted exactly when some row at `f` is directly followed by one at `g` |
| NetworkMaker.RowSumBump | transfer_linkage/network_maker.py:15 | adding one to an entry adds one to its row's sum and nothing to the others |
| NetworkMaker.RowSumUnchanged | transfer_linkage/network_maker.py:15 | adding one to an entry outside a row's columns leaves that row's sum alone |
| NetworkMaker.TotalBump | transfer_linkage/network_maker.py:15 | adding one to an entry inside the matrix adds one to its total |
| NetworkMaker.TotalUnchanged | transfer_linkage/network_maker.py:15 | adding one to an entry below the counted rows leaves their total alone |
| NetworkMaker.TotalEmpty | transfer_linkage/network_maker.py:9 | the new `dok_matrix` sums to zero |
| NetworkMaker.RowSumEmpty | transfer_linkage/network_maker.py:9 | every row of the new matrix sums to zero |
| NetworkMaker.EntryBump | transfer_linkage/network_maker.py:15 | `+= 1` on one entry changes that entry alone |
| NetworkMaker.FirstRowEntries | transfer_linkage/network_maker.py:12-14 | a subject's first row, met while `from_nd` is None, adds nothing to any entry |
| NetworkMaker.AddPairEntries | transfer_linkage/network_maker.py:14-15 | one consecutive pair adds one to its own entry and to no other, keeps the keys inside the block, and adds one to the total |
| NetworkMaker.AddSubject | transfer_linkage/network_maker.py:12-16 | one subject's rows add, to every entry, the number of consecutive pairs from the row's facility to the column's, and the number of rows less one to the total |
| NetworkMaker.MakeAdj | transfer_linkage/network_maker.py:6-18 | `make_adj` returns the index map and a matrix inside the n-by-n block. Entry (map[f], map[g]) counts the consecutive row pairs from `f` to `g` within single subjects, and the entries add up to the number of consecutive row pairs |

## Left out

- Reading and writing files, and the polars, numpy and scipy glue, are not modelled. A data frame is a sequence of rows, a `dok_matrix` is a map from index pairs to counts, and a dictionary is a `map`.
- A row is taken to have exactly the four columns `sID`, `fID`, `Adate`, `Ddate`, in this order. Of the source's reads, only `row[-1]` (the gap test and the marker date, transfer_linkage/parse_transitions.py:19 and :22) depends on `Ddate` being the last column; with extra columns after `Ddate` it would read the last of them instead. The other reads keep their meaning: `zip` with the three names of `_cols` keeps only the first three fields (transfer_linkage/parse_transitions.py:14, :20 and :23), `next_row[2]` is still `Adate`, the final marker reads `Ddate` by name (transfer_linkage/parse_transitions.py:25), and `make_adj` collects extra fields in `*aux` (transfer_linkage/network_maker.py:13). `clean_database` keeps extra columns by default (transfer_linkage/cleaner.py:44), so such frames can occur; they are not modelled.
- Dates are whole days (`int`), and `window` is an integer number of days. The source compares `datetime` differences with a `timedelta` built from a float `window`, so sub-day times and fractional windows are not modelled.
- `df.partition_by('sID')` is taken as given: the functions receive the subject partitions, in the order polars returns them.
- `unique()` is taken to list facilities in order of first appearance. Polars does not promise any order. Every property of `MakeAdj` holds for the order `Facilities` gives.
- The sort is a function (`Events.SortEvents`) and not the list's in-place algorithm. It is proved equal to any sorted permutation, and so to Python's `sorted`.
- `times.pop(0)` and the in-place `list.append` calls in `slow_break` are modelled on values. The loop keeps the queue and the records as sequences. The caller's list, which `slow_break` empties and sorts in place, is not modelled.
- `parse_indv_transition` is a generator. The model collects its whole output into a list, so laziness and partial consumption are not modelled.
- `ParseTransitions.IndvTransitions`: the `RuntimeError` that an empty chunk raises at its first `next` is modelled as `None`.
- `ParseTransitions.AllTransitions`: polars' own failure on an empty list of frames is modelled as `None`. Column types in `pl.from_records` are not modelled.
- `OverlapFixer.CleanPassThrough`: this requires each stay to have positive length. In input that does not overlap, a zero-length stay makes the source raise: its end sorts before its start, so the sweep meets one end too many and stops at the idle-state assertion or in `deque.remove`. This is proved only for a lone stay (`OverlapExamples.ZeroLengthFails`). Inside an overlap a zero-length stay can pass (`OverlapExamples.ZeroLengthInsideOverlap`), and such input is not covered by this lemma.
- `OverlapFixer.CleanCoverage`: this covers only stays that end no earlier than they start. The upstream cleaning drops stays whose admission is after their discharge, and for such a stay the moments it covers are not defined.
- `write_adj` is left out. It only writes the matrix as text.
- The rest of the repository is not part of this model, including `cleaner.py`, `fix_overlaps`, `num_overlaps` and the iteration counts.
