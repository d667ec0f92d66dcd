# Realm object store: index sets and their neighbours

Models of the parts of Realm's object store, as vendored under `Example/Pods/Realm`, that hold
logic of their own, with proofs of what they promise.

- **Index sets.** `IndexSet` keeps row indices as maximal half-open ranges, packed into chunks that
  cache their bounds and counts. `NatSets` and `Renumbering` say what each operation means on plain
  finite sets. `Ranges`, `RangeUpdates`, `Chunks` and `Lookup` connect lists of ranges and chunks to
  sets. The classes `ChunkedRangeVector`, `ChunkedRangeVectorBuilder` and `IndexSet` are the code,
  updating chunks in place; `Merges` and `Translations` hold the steps of its merge loops,
  `IndexSetLaws` the laws of whole sets, and `IndexSetExamples` calls that go wrong.
- **Dispatcher.** `Dispatchers` is the locked queue of `EventLoopDispatcher` as steps of any number of
  threads, with its safety over every interleaving and its progress under every schedule; the class is
  the code of one thread, each method proved to end where its steps lead.
- **Schemas.** `SchemaValidation` is the validation of object types, `KeyPaths` the parser of the key
  paths that results are sorted by, `Names` the sorted scans both rely on.
- **Results.** `ResultsModes` is the lazy mode machine of `Results` over `Queries`, an abstract database
  of rows, with the laws in `Orderings` and `Deletions`; `ResultsRuns` proves what holds over whole runs, and
  `ResultsExamples` has runs that show the unexpected.
- **Lists.** `Lists` has the two strategies of `List::assign`.

Conventions. `size_t` is an unbounded natural number, so overflow is not modelled; `npos` is 2^64 - 1.
An iterator is a pair of a chunk index and an offset, as a value. The chunk capacity is any even
number from 2 up, fixed for each set; `ensure_space` keeps its iterator only if both halves are of one
size. A precondition of a method is an assertion or an unchecked assumption of the original. Long
functions of the original are divided into several methods, one for each branch or loop.

## Where the code does less than it says

- `count` returns early at index_set.cpp:298-301 when it leaves a partly counted chunk for a chunk whose
  first range holds the end. `CountExactIff` gives the exact condition, `CountStopsShort` a call.
- The builder gives a chunk opened beyond the reserved ones the count 1 (index_set.cpp:244), which is wrong
  if `add_shifted_by` copies a longer range into it. `AddShiftedBy` states exactly when, in terms of the sets
  before the call, and `AddShiftedByMiscounts` is a call. The members of the set are right all the same.
- `remove(i, 0)` strictly inside a range splits it into two that touch (index_set.cpp:625-629), which
  `verify` would refuse. `Remove` states exactly when, `RemoveNothing` is a call.
- A conflicting alias is reported under the property that the public name finds first, which need not have
  the alias (object_schema.cpp:282-287). `ConflictOwner` gives the exact condition on the order of the
  properties, `WrongOwnerExample` an input.
- Repeated property names are reported k / 2 times, repeated types k - 1 times.
- A primary key name is satisfied by any property marked as primary, whatever its name
  (object_schema.cpp:307-309): `ForeignKeyExample`. `KeysAreNamesIff` shows that types without a marked
  property are exactly those for which it does not happen.
- `Results::clear` is documented to leave size zero (results.hpp:113-116). A snapshot keeps its size, and
  with a limit or with duplicates removed other rows may come into view. `Clear` has the exact condition,
  `ClearUncoversRow` a run. This rests on `TableView::clear`, which is not part of this model, leaving the
  view to be brought up to date by running its query again.
- `Results::filter` narrows the query before duplicates are removed (results.cpp:611-616), so it may show
  rows that were not shown: `FilterUncoversRow`. `FilterOfDistinct` gives the exact condition for one
  removal of duplicates, `FilteredBy` carries it over to whole orderings.
- `Results::sort` on a list that was sorted and not yet read drops the first sort (results.cpp:604-605); once
  the same results have been read it is kept: `ReadingKeepsFirstSort`. `SortedBy` has the exact condition
  under which this makes no difference.
- Results made from a snapshot follow the database and not the snapshot (results.cpp:492-497):
  `LimitOfSnapshot`.
- `prepare_for_aggregate` lets a column equal to the column count through (results.cpp:343).
- The empty public name finds any persisted property without an alias, but only an unnamed computed one
  (object_schema.cpp:115-123).

## Model

| member | source | states |
|---|---|---|
| `NatSets.RankIsCardinality` | Example/Pods/Realm/include/index_set.hpp:144-145 | counting the members below a position one by one gives the size of that part of the set |
| `NatSets.CountInIsCardinality` | Example/Pods/Realm/include/index_set.hpp:144-145 | the number the documentation of `count` promises, the members in [start, end), is the cardinality of that part of the set |
| `NatSets.UnshiftOfShift` | Example/Pods/Realm/include/index_set.hpp:183-186 | shifting lands on a non-member, and unshifting brings every index back |
| `NatSets.ShiftOfUnshift` | Example/Pods/Realm/include/index_set.hpp:183-186 | shifting brings every non-member back from its unshifted place |
| `NatSets.ShiftStrictlyIncreasing` | Example/Pods/Realm/include/index_set.hpp:183-186 | shifting keeps the strict order of indices |
| `NatSets.ShiftUnique` | Example/Pods/Realm/include/index_set.hpp:183-186 | the shifted index is the only non-member with that unshifted place, so it is the i-th non-member |
| `NatSets.InsertAtMember` | Example/Pods/Realm/include/index_set.hpp:162-164 | pointwise: an index is in the result if it is below i and was in the set, is one of the new ones, or was in the set `count` places lower |
| `NatSets.ShiftForInsertAtMember` | Example/Pods/Realm/include/index_set.hpp:167-168 | the same without the new indices |
| `NatSets.EraseAtMember` | Example/Pods/Realm/include/index_set.hpp:171-173 | pointwise: below i membership stays, from i on it is that of the next index before |
| `Renumbering.ShiftAllMember` | Example/Pods/Realm/include/index_set.hpp:169 | an index is in the batch-shifted set exactly if it is no position and unshifts into the set |
| `Renumbering.EraseAllMember` | Example/Pods/Realm/include/index_set.hpp:174 | an index is in the batch-erased set exactly if shifting it past the positions leads into the set |
| `Renumbering.ShiftAllIsShiftEach` | Example/Pods/Realm/include/index_set.hpp:167-169 | a batch shift equals the single shifts at its positions in ascending order |
| `Renumbering.InsertAllIsInsertEach` | Example/Pods/Realm/include/index_set.hpp:162-165 | a batch insertion equals the single insertions at its positions in ascending order |
| `Renumbering.EraseAllIsEraseEach` | Example/Pods/Realm/include/index_set.hpp:171-174 | a batch erasure equals the single erasures at its positions in descending order |
| `Renumbering.EraseUndoesInsert` | Example/Pods/Realm/Realm/ObjectStore/src/index_set.cpp:456-571 | for all sets and positions, erasing the inserted positions restores the set |
| `Renumbering.EraseUndoesShift` | Example/Pods/Realm/Realm/ObjectStore/src/index_set.cpp:508-571 | for all sets and positions, erasing the positions room was made for restores the set |
| `Renumbering.InsertUndoesErase` | Example/Pods/Realm/Realm/ObjectStore/src/index_set.cpp:456-571 | the other way round it holds exactly if every erased position was in the set |
| `Renumbering.ShiftBeyondEnd` | Example/Pods/Realm/Realm/ObjectStore/src/index_set.cpp:512-513 | no position below the end of the set means that shifting changes nothing, which is what the early exit relies on |
| `Renumbering.AddShiftedByErased` | Example/Pods/Realm/include/index_set.hpp:154-156 | removing the old set again from what `add_shifted_by` makes of it leaves what removing `shifted_by` from `values` leaves |
| `Renumbering.TranslationIncreases` | Example/Pods/Realm/Realm/ObjectStore/src/index_set.cpp:396-412 | the translated indices come out in strictly ascending order |
| `Renumbering.AddShiftedBySize` | Example/Pods/Realm/Realm/ObjectStore/src/index_set.cpp:380-386 | the set grows by exactly the values outside `shifted_by`, as the debug assertion expects |
| `Ranges.Canonical` | Example/Pods/Realm/Realm/ObjectStore/src/index_set.cpp:172-193 | a set has only one list of maximal ranges, so ranges that pass `verify` are determined by their members |
| `Ranges.TotalIsCardinality` | Example/Pods/Realm/Realm/ObjectStore/src/index_set.cpp:182-191 | the sum of the range lengths is the number of members |
| `Ranges.AppendedSeparated` | Example/Pods/Realm/Realm/ObjectStore/src/index_set.cpp:224-252 | appending a later range, merged if it touches, keeps the ranges maximal and adds exactly its indices |
| `RangeUpdates.ScanLocated` | Example/Pods/Realm/Realm/ObjectStore/src/index_set.cpp:328-344 | the first range that ends after the index is the only place with everything before it at or below the index and nothing after it |
| `ChunkedRangeVectors.ChunkedRangeVector.SetRange` | Example/Pods/Realm/Realm/ObjectStore/src/index_set.cpp:30-43 | replaces exactly the range under the iterator, all cached values staying exact |
| `ChunkedRangeVectors.ChunkedRangeVector.Adjust` | Example/Pods/Realm/Realm/ObjectStore/src/index_set.cpp:45-57 | moves the two ends of exactly the range under the iterator, all cached values staying exact |
| `ChunkedRangeVectors.ChunkedRangeVector.ShiftRange` | Example/Pods/Realm/Realm/ObjectStore/src/index_set.cpp:59-70 | moves exactly the range under the iterator, whatever the order of the ranges is meanwhile |
| `ChunkedRangeVectors.ChunkedRangeVector.PushBack` | Example/Pods/Realm/Realm/ObjectStore/src/index_set.cpp:72-86 | appends a range, in the last chunk if that has room and else in a new one |
| `ChunkedRangeVectors.ChunkedRangeVector.Insert` | Example/Pods/Realm/Realm/ObjectStore/src/index_set.cpp:88-104 | inserts the range before the position wherever the chunk is split, and returns its place |
| `ChunkedRangeVectors.ChunkedRangeVector.EnsureSpace` | Example/Pods/Realm/Realm/ObjectStore/src/index_set.cpp:106-142 | makes room by halving a full chunk without changing the ranges or the other chunks, the iterator keeping its position |
| `ChunkedRangeVectors.ChunkedRangeVector.Erase` | Example/Pods/Realm/Realm/ObjectStore/src/index_set.cpp:144-170 | removes exactly the range under the iterator, dropping an emptied chunk, and returns the next position |
| `ChunkedRangeVectors.ChunkedRangeVector.Verify` | Example/Pods/Realm/Realm/ObjectStore/src/index_set.cpp:172-193 | the debug check passes exactly on maximal ranges with exact caches; with the chunk sizes that is the invariant |
| `ChunkedRangeVectors.ChunkedRangeVector.VerifyRanges` | Example/Pods/Realm/Realm/ObjectStore/src/index_set.cpp:172-180 | the first loop of the check passes exactly on maximal ranges |
| `ChunkedRangeVectors.SplitChunk` | Example/Pods/Realm/Realm/ObjectStore/src/index_set.cpp:113-141 | halving a full chunk keeps the ranges, the bounds and counts, and the position when the capacity is even |
| `Builders.ChunkedRangeVectorBuilder.constructor` | Example/Pods/Realm/Realm/ObjectStore/src/index_set.cpp:209-217 | an empty builder with one slot for each full chunk expected and one more |
| `Builders.ChunkedRangeVectorBuilder.PushIndex` | Example/Pods/Realm/Realm/ObjectStore/src/index_set.cpp:219-222 | appends one index, and never spoils a count |
| `Builders.ChunkedRangeVectorBuilder.PushRange` | Example/Pods/Realm/Realm/ObjectStore/src/index_set.cpp:224-252 | appends a range, merged if it touches; the counts stay right exactly if the push is no miscounting one |
| `Builders.ChunkedRangeVectorBuilder.Finalize` | Example/Pods/Realm/Realm/ObjectStore/src/index_set.cpp:254-264 | the chunks hold the pushed ranges with exact bounds and sizes, and exact counts if no push miscounted |
| `Builders.Pushing` | Example/Pods/Realm/Realm/ObjectStore/src/index_set.cpp:224-252 | one push appends the range; the counts stay exact if and only if they were and the push is not a range longer than one that opens a chunk beyond the reserved ones |
| `IndexSets.IndexSet.Find` | Example/Pods/Realm/include/index_set.hpp:238-240 | the first range that ends after the index |
| `IndexSets.IndexSet.FindFrom` | Example/Pods/Realm/Realm/ObjectStore/src/index_set.cpp:328-344 | the same from any hint with nothing relevant before it, as a linear scan of all ranges would find it |
| `IndexSets.IndexSet.LowerBound` | Example/Pods/Realm/Realm/ObjectStore/src/index_set.cpp:339-340 | binary search inside the chunk |
| `IndexSets.IndexSet.Contains` | Example/Pods/Realm/Realm/ObjectStore/src/index_set.cpp:273-277 | membership |
| `IndexSets.IndexSet.Count` | Example/Pods/Realm/Realm/ObjectStore/src/index_set.cpp:279-321 | what the walk returns, exact unless it stops short |
| `IndexSetLaws.CountExactIff` | Example/Pods/Realm/Realm/ObjectStore/src/index_set.cpp:279-321 | `count` returns the number of members in [start, end) if and only if the walk does not leave a partly counted chunk straight into a first range with first < end <= second |
| `IndexSetLaws.CountFromZeroExact` | Example/Pods/Realm/Realm/ObjectStore/src/index_set.cpp:279-321 | from zero, as `unshift` counts, it is always exact |
| `IndexSetLaws.CountStopsShortExample` | Example/Pods/Realm/Realm/ObjectStore/src/index_set.cpp:298-301 | on {0, 1, 10, ..., 19} in two chunks it returns 1 for [1, 15), which holds 6 members |
| `IndexSets.IndexSet.Shift` | Example/Pods/Realm/Realm/ObjectStore/src/index_set.cpp:656-665 | the range walk computes the i-th non-member |
| `IndexSets.IndexSet.Unshift` | Example/Pods/Realm/Realm/ObjectStore/src/index_set.cpp:667-671 | the chunk walk computes the index less the members below it |
| `IndexSets.IndexSet.DoAdd` | Example/Pods/Realm/Realm/ObjectStore/src/index_set.cpp:678-707 | adds exactly the index through its found, extend, join, prepend and insert cases, ranges staying maximal, and returns the range that holds it |
| `IndexSets.IndexSet.Add` | Example/Pods/Realm/Realm/ObjectStore/src/index_set.cpp:346-349 | adds exactly the index |
| `IndexSets.IndexSet.AddAll` | Example/Pods/Realm/Realm/ObjectStore/src/index_set.cpp:351-357 | union, with the running hint; adding a set to itself changes nothing |
| `IndexSets.IndexSet.AddShifted` | Example/Pods/Realm/Realm/ObjectStore/src/index_set.cpp:359-373 | adds exactly the shifted index, computed by chunk and range skips, and returns it |
| `IndexSets.IndexSet.ShiftPastChunks` | Example/Pods/Realm/Realm/ObjectStore/src/index_set.cpp:363-365 | skipping whole chunks by their counts agrees with walking their ranges |
| `IndexSets.IndexSet.AddShiftedBy` | Example/Pods/Realm/Realm/ObjectStore/src/index_set.cpp:375-420 | adds exactly the values outside `shifted_by`, unshifted by it and shifted by the old set; the result is valid if and only if among the maximal ranges of that set, known before the call, none above every added index opens a chunk beyond the reserved ones with more than one index |
| `Translations.TailMiscountsIff` | Example/Pods/Realm/Realm/ObjectStore/src/index_set.cpp:414-415 | whether the tail copy spoils a count, read off the result alone |
| `Translations.PlaceNew` | Example/Pods/Realm/Realm/ObjectStore/src/index_set.cpp:404-411 | after the copied ranges the next position is where the old set shifts the unshifted value |
| `IndexSetLaws.MiscountExample` | Example/Pods/Realm/Realm/ObjectStore/src/index_set.cpp:240-244 | with chunks of four, adding 0, 2, 4, 6, 8 in front of 100-101, 110-111, 120-121, 130-131 leaves a wrong count |
| `IndexSetLaws.MiscountSets` | Example/Pods/Realm/Realm/ObjectStore/src/index_set.cpp:375-420 | those ranges are what `add_shifted_by` makes of these sets |
| `IndexSetExamples.AddShiftedByMiscounts` | Example/Pods/Realm/Realm/ObjectStore/src/index_set.cpp:375-420 | such a call, at the end of which the set has the right members and does not verify |
| `IndexSetExamples.CountStopsShort` | Example/Pods/Realm/Realm/ObjectStore/src/index_set.cpp:298-301 | such a call of `count`, which answers 1 where there are 6 members |
| `IndexSetExamples.RemoveNothing` | Example/Pods/Realm/Realm/ObjectStore/src/index_set.cpp:625-629 | such a call of `remove`, after which {0, 1} does not verify |
| `IndexSets.IndexSet.SetLength` | Example/Pods/Realm/Realm/ObjectStore/src/index_set.cpp:422-428 | exactly the indices below the length |
| `IndexSets.IndexSet.ShiftUntilEnd` | Example/Pods/Realm/Realm/ObjectStore/src/index_set.cpp:445-446 | moves every range from the position on, the order of ranges being restored only at the end |
| `IndexSets.IndexSet.InsertAt` | Example/Pods/Realm/Realm/ObjectStore/src/index_set.cpp:430-454 | the set with `count` new indices at the position, in place |
| `IndexSets.IndexSet.InsertInsideRange` | Example/Pods/Realm/Realm/ObjectStore/src/index_set.cpp:437-446 | the case of a range that holds the position, which grows |
| `IndexSets.IndexSet.InsertBetweenRanges` | Example/Pods/Realm/Realm/ObjectStore/src/index_set.cpp:437-451 | the case of a gap, where the new indices are added one by one |
| `IndexSets.IndexSet.InsertAtAll` | Example/Pods/Realm/Realm/ObjectStore/src/index_set.cpp:456-485 | the batch insertion, by merging |
| `IndexSets.IndexSet.ShiftForInsertAt` | Example/Pods/Realm/Realm/ObjectStore/src/index_set.cpp:487-506 | the set with room made for `count` indices, a straddled range being split |
| `IndexSets.IndexSet.SplitShifted` | Example/Pods/Realm/Realm/ObjectStore/src/index_set.cpp:500-504 | the split after the shift |
| `IndexSets.IndexSet.ShiftForInsertAtAll` | Example/Pods/Realm/Realm/ObjectStore/src/index_set.cpp:508-533 | the batch shift, including its early exits |
| `IndexSets.IndexSet.EraseAt` | Example/Pods/Realm/Realm/ObjectStore/src/index_set.cpp:535-540 | the set without the index, everything above one lower |
| `IndexSets.IndexSet.EraseAtAll` | Example/Pods/Realm/Realm/ObjectStore/src/index_set.cpp:542-571 | the batch erasure, by merging |
| `IndexSets.IndexSet.EraseOrUnshift` | Example/Pods/Realm/Realm/ObjectStore/src/index_set.cpp:573-595 | erases the index; the answer is 2^64 - 1 for a member and the unshifted index, which is no greater than the index, for any other |
| `IndexSets.IndexSet.UnshiftPast` | Example/Pods/Realm/Realm/ObjectStore/src/index_set.cpp:575-584 | skipping by chunk counts finds the range and the unshifted index |
| `IndexSets.IndexSet.DoErase` | Example/Pods/Realm/Realm/ObjectStore/src/index_set.cpp:597-615 | drops the index and lowers the rest, joining ranges across a closed gap |
| `RangeUpdates.EraseJoin` | Example/Pods/Realm/Realm/ObjectStore/src/index_set.cpp:608-614 | erasing a gap of one joins its neighbours into one maximal range |
| `RangeUpdates.EraseFromRange` | Example/Pods/Realm/Realm/ObjectStore/src/index_set.cpp:599-614 | erasing inside a longer range shortens it and lowers the rest |
| `RangeUpdates.SplitTail` | Example/Pods/Realm/Realm/ObjectStore/src/index_set.cpp:495-504 | shifting from inside a range splits it and nothing else |
| `IndexSets.IndexSet.DoRemove` | Example/Pods/Realm/Realm/ObjectStore/src/index_set.cpp:617-639 | ends, removes exactly [begin, end), and leaves maximal ranges unless the interval is empty and strictly inside a range |
| `RangeUpdates.RemovalGoesOn` | Example/Pods/Realm/Realm/ObjectStore/src/index_set.cpp:619-637 | every round leaves fewer members in [begin, end), or is the one that splits for nothing |
| `RangeUpdates.RemovalEnds` | Example/Pods/Realm/Realm/ObjectStore/src/index_set.cpp:617-639 | what is known when the loop ends |
| `IndexSets.IndexSet.Remove` | Example/Pods/Realm/Realm/ObjectStore/src/index_set.cpp:641-644 | removes exactly [index, index + count); valid if and only if it is not an empty interval strictly inside a range |
| `IndexSetLaws.RemoveNothingExample` | Example/Pods/Realm/Realm/ObjectStore/src/index_set.cpp:625-629 | an empty removal inside {0, 1} leaves ranges that touch, on which `verify` fails |
| `IndexSets.IndexSet.RemoveAll` | Example/Pods/Realm/Realm/ObjectStore/src/index_set.cpp:646-654 | set difference, resuming from the returned iterator |
| `IndexSets.IndexSet.Clear` | Example/Pods/Realm/Realm/ObjectStore/src/index_set.cpp:673-676 | the empty set |
| `IndexSetLaws.InsertThenEraseRestores` | Example/Pods/Realm/Realm/ObjectStore/src/index_set.cpp:456-571 | after a batch insertion and the erasure of the same positions the ranges themselves are the same as before |
| `IndexSetLaws.ShiftThenEraseRestores` | Example/Pods/Realm/Realm/ObjectStore/src/index_set.cpp:508-571 | the same for a batch shift |
| `IndexIterators.StartIterating` | Example/Pods/Realm/include/index_set.hpp:191-219 | the index iterator starts on the least member |
| `IndexIterators.KeepIterating` | Example/Pods/Realm/include/index_set.hpp:199-207 | each step goes to the next greater member |
| `Merges.ShiftingTakes` | Example/Pods/Realm/Realm/ObjectStore/src/index_set.cpp:520-528 | an index of the set is written with the number of positions at or below its place added |
| `Merges.ErasingDrops` | Example/Pods/Realm/Realm/ObjectStore/src/index_set.cpp:553-566 | an index that is a position is dropped |
| `Dispatchers.StepKeepsOrder` | Example/Pods/Realm/include/util/event_loop_dispatcher.hpp:66-105 | every step keeps delivered calls followed by waiting calls equal to the pushes |
| `Dispatchers.StepKeepsInv` | Example/Pods/Realm/include/util/event_loop_dispatcher.hpp:66-105 | every step of every thread keeps mutual exclusion, order, keep-alive and the promise to run |
| `Dispatchers.EveryRunIsSafe` | Example/Pods/Realm/include/util/event_loop_dispatcher.hpp:66-105 | in every state any interleaving reaches: delivery in lock order and exactly once, a queued call keeps the signal, and its callback is running, asked for or about to be asked for |
| `Dispatchers.EveryCallIsPushed` | Example/Pods/Realm/include/util/event_loop_dispatcher.hpp:92-105 | over every run what is delivered, waiting and in the hand of the call that has the lock is, in order, exactly what was called with from other threads, and what was run directly is what was called with on the owning thread |
| `Dispatchers.EveryCallNotifies` | Example/Pods/Realm/include/util/event_loop_dispatcher.hpp:92-105 | over every run each call of each thread takes its five steps, so that a thread outside a call has notified as often as it has called |
| `Dispatchers.OnlyTheLockIsWaitedFor` | Example/Pods/Realm/include/util/event_loop_dispatcher.hpp:66-105 | a thread inside a call or the callback can always go on but for the lock, and a callback asked for can start once the owning thread is at rest |
| `Dispatchers.QuietMeansDelivered` | Example/Pods/Realm/include/util/event_loop_dispatcher.hpp:66-105 | at rest nothing pushed is undelivered |
| `Dispatchers.SomethingCanRun` | Example/Pods/Realm/include/util/event_loop_dispatcher.hpp:66-105 | no deadlock while anything is under way |
| `Dispatchers.EveryScheduleDelivers` | Example/Pods/Realm/include/util/event_loop_dispatcher.hpp:66-105 | once calls stop coming in every schedule ends within a bound, with every call delivered |
| `Dispatchers.DrainDelivers` | Example/Pods/Realm/include/util/event_loop_dispatcher.hpp:66-76 | an uninterrupted callback delivers the whole queue in order and resets the signal |
| `Dispatchers.CallQueues` | Example/Pods/Realm/include/util/event_loop_dispatcher.hpp:99-104 | the five steps of a call from another thread, uninterrupted, queue it and ask for the callback |
| `Dispatchers.CallbackDelivers` | Example/Pods/Realm/include/util/event_loop_dispatcher.hpp:66-76 | from being asked for to resting, the steps of the callback deliver the queue in order |
| `Dispatchers.EventLoopDispatcher.Invoke` | Example/Pods/Realm/include/util/event_loop_dispatcher.hpp:92-105 | the code of a call ends in the state its protocol steps lead to: a call on the owning thread runs at once, any other is queued, sets the signal and notifies |
| `Dispatchers.EventLoopDispatcher.Callback` | Example/Pods/Realm/include/util/event_loop_dispatcher.hpp:66-76 | the draining loop ends in the state the callback steps lead to, with everything pushed delivered in order |
| `Names.DuplicatesHalve` | Example/Pods/Realm/Realm/ObjectStore/src/object_schema.cpp:259-263 | in a sorted list the scan reports a name given k times k / 2 times, rounded down |
| `Names.ReportDuplicates` | Example/Pods/Realm/Realm/ObjectStore/src/object_schema.cpp:259-263 | the scan that goes on two places after each find |
| `Names.DuplicatesAscend` | Example/Pods/Realm/Realm/ObjectStore/src/object_schema.cpp:259-263 | and reports them in ascending order |
| `Names.LessIff` | Example/Pods/Realm/Realm/ObjectStore/src/object_schema.cpp:255-256 | the order of names: the lesser character where two first differ, or a proper beginning |
| `Names.CommonCounts` | Example/Pods/Realm/Realm/ObjectStore/src/object_schema.cpp:295-296 | the sorted merge finds each name as often as both lists have it |
| `Names.CommonAscends` | Example/Pods/Realm/Realm/ObjectStore/src/object_schema.cpp:295-296 | and finds them in ascending order |
| `Names.Intersect` | Example/Pods/Realm/Realm/ObjectStore/src/object_schema.cpp:295-296 | the merge loop |
| `Schemas.FindIsFirst` | Example/Pods/Realm/Realm/ObjectStore/src/schema.cpp:53-62 | in name order the search finds the first type of the name if and only if there is one |
| `Schemas.PropertyForNameFinds` | Example/Pods/Realm/Realm/ObjectStore/src/object_schema.cpp:96-109 | a property of that name if there is any, persisted ones first |
| `Schemas.NameSearchOrder` | Example/Pods/Realm/Realm/ObjectStore/src/object_schema.cpp:96-109 | namely the first of that name in search order |
| `Schemas.PropertyForPublicNameFinds` | Example/Pods/Realm/Realm/ObjectStore/src/object_schema.cpp:111-127 | a persisted property that passes the test for persisted ones if there is any, else a computed one with that public name, each kind of property with its own test |
| `Schemas.PublicSearchOrder` | Example/Pods/Realm/Realm/ObjectStore/src/object_schema.cpp:111-127 | any other public name finds the first property in search order that has it |
| `SchemaValidation.ValidateProperty` | Example/Pods/Realm/Realm/ObjectStore/src/object_schema.cpp:154-239 | the problems appended for one property are, in order, those whose causes are there, and the primary key seen so far |
| `SchemaValidation.EachProblemHasItsCause` | Example/Pods/Realm/Realm/ObjectStore/src/object_schema.cpp:154-239 | for each kind of problem exactly when a property draws it, with the types that may be indexed, optional or a key spelled out; each once and in the order of the checks |
| `SchemaValidation.NoPropertyProblems` | Example/Pods/Realm/Realm/ObjectStore/src/object_schema.cpp:154-239 | none exactly if the property is legal for its kind and no second primary key |
| `SchemaValidation.Validate` | Example/Pods/Realm/Realm/ObjectStore/src/object_schema.cpp:241-310 | the problems appended for one type, in order; they are those whose causes are there, and none exactly for a well-formed type |
| `SchemaValidation.EachProblemOfATypeHasItsCause` | Example/Pods/Realm/Realm/ObjectStore/src/object_schema.cpp:241-310 | for each kind of problem exactly when a type draws it, those of a property by its place after the last primary key before it |
| `SchemaValidation.TypeProblemsInOrder` | Example/Pods/Realm/Realm/ObjectStore/src/object_schema.cpp:241-310 | repeated aliases come first, then repeated names, conflicts, the problems of the properties, and the missing key |
| `SchemaValidation.SilentIffWellFormed` | Example/Pods/Realm/Realm/ObjectStore/src/object_schema.cpp:241-310 | none if and only if the type is well formed: names and aliases unique and disjoint, legal properties, resolving links, reciprocal backlinks, one primary key at most and an existing key |
| `SchemaValidation.RepeatedNameHalves` | Example/Pods/Realm/Realm/ObjectStore/src/object_schema.cpp:259-271 | a property name given k times is reported k / 2 times |
| `SchemaValidation.RepeatedAliasHalves` | Example/Pods/Realm/Realm/ObjectStore/src/object_schema.cpp:259-267 | so is an alias |
| `SchemaValidation.ConflictCounts` | Example/Pods/Realm/Realm/ObjectStore/src/object_schema.cpp:273-296 | an alias that is a name is reported as often as both have it, under the property its public name finds |
| `SchemaValidation.ConflictsResolve` | Example/Pods/Realm/Realm/ObjectStore/src/object_schema.cpp:282-287 | the lookup that names this property never returns null |
| `SchemaValidation.ConflictOwner` | Example/Pods/Realm/Realm/ObjectStore/src/object_schema.cpp:273-296 | the property reported for a conflicting alias has that alias if and only if in search order every unaliased property of that name comes after one with the alias |
| `SchemaValidation.WrongOwnerExample` | Example/Pods/Realm/Realm/ObjectStore/src/object_schema.cpp:282-287 | of x without alias and y with the alias x, the report says that x has the alias |
| `SchemaValidation.KeysAreNamesIff` | Example/Pods/Realm/Realm/ObjectStore/src/object_schema.cpp:307-309 | that a type passes only if its primary key is the name of one of its properties, whatever the key, holds if and only if none of them is marked as primary |
| `SchemaValidation.ForeignKeyExample` | Example/Pods/Realm/Realm/ObjectStore/src/object_schema.cpp:307-309 | a type with key a and no property but b, marked as primary, passes |
| `SchemaValidation.RepeatedTypeCounts` | Example/Pods/Realm/Realm/ObjectStore/src/schema.cpp:83-93 | a type given k times is reported k - 1 times |
| `SchemaValidation.ValidateSchema` | Example/Pods/Realm/Realm/ObjectStore/src/schema.cpp:79-102 | nothing is found exactly on the sound schemas |
| `KeyPaths.ParseKeyPath` | Example/Pods/Realm/Realm/ObjectStore/src/results.cpp:535-574 | the loop ends and answers with the columns or the first fault; no link is followed to a missing type |
| `KeyPaths.ChainIsAccepted` | Example/Pods/Realm/Realm/ObjectStore/src/results.cpp:535-574 | a chain of single links ending in a sortable value is accepted with the columns of its properties |
| `KeyPaths.AcceptedIsChain` | Example/Pods/Realm/Realm/ObjectStore/src/results.cpp:535-574 | and only such a chain is |
| `KeyPaths.FailureIsReported` | Example/Pods/Realm/Realm/ObjectStore/src/results.cpp:535-574 | where single links lead to a segment at fault, that fault is the answer: a missing name, no such property, a list or backlink or binary property, a link at the end, or a value before the end |
| `KeyPaths.FailureHasItsCause` | Example/Pods/Realm/Realm/ObjectStore/src/results.cpp:535-574 | and every refusal comes from such a segment |
| `KeyPaths.OneColumnEach` | Example/Pods/Realm/Realm/ObjectStore/src/results.cpp:535-574 | one column for each segment |
| `KeyPaths.JoinOfSplit` | Example/Pods/Realm/Realm/ObjectStore/src/results.cpp:552-556 | the segments joined by dots are the path |
| `KeyPaths.SplitOfJoin` | Example/Pods/Realm/Realm/ObjectStore/src/results.cpp:552-556 | and segments without dots are found again from the path |
| `KeyPaths.SoundLinksResolve` | Example/Pods/Realm/Realm/ObjectStore/src/object_schema.cpp:212-218 | validation is what makes every link resolve |
| `Queries.CountIsSize` | Example/Pods/Realm/Realm/ObjectStore/src/results.cpp:134-137 | counting without running the query gives the number of rows it would find, unless duplicates are removed |
| `Queries.SortsPermute` | Example/Pods/Realm/Realm/ObjectStore/src/results.cpp:133 | a sorted list has the rows of the list |
| `Queries.AtMostIsPrefix` | Example/Pods/Realm/Realm/ObjectStore/src/results.cpp:618-623 | a limit leaves the first rows, as many as it allows or as there are |
| `Queries.ExistingKeepsOrder` | Example/Pods/Realm/Realm/ObjectStore/src/results.cpp:492-497 | of a view made without a query the rows still in the table are left, in the order of the view |
| `Queries.FilterKeepsOrder` | Example/Pods/Realm/Realm/ObjectStore/src/results.cpp:611-616 | a filter leaves the rows whose values meet the condition, in order |
| `Orderings.SortAscends` | Example/Pods/Realm/Realm/ObjectStore/src/results.cpp:602-609 | a sort leaves the same rows, their keys ascending |
| `Orderings.DistinctKeepsFirst` | Example/Pods/Realm/Realm/ObjectStore/src/results.cpp:649-654 | of the rows of one key the first is left |
| `Deletions.QueryFinds` | Example/Pods/Realm/Realm/ObjectStore/src/results.cpp:485-513 | a query finds exactly the rows of its table, list or view whose values meet all its conditions |
| `Orderings.FilterOfSorts` | Example/Pods/Realm/Realm/ObjectStore/src/results.cpp:611-616 | filtering before or after any sorts gives the same rows in the same order |
| `Orderings.FilterOfDistinct` | Example/Pods/Realm/Realm/ObjectStore/src/results.cpp:611-616 | filtering before removing duplicates gives the same rows as after if and only if no row that meets the condition has only rows that do not among the earlier ones of its key |
| `Orderings.FilterOfOrdering` | Example/Pods/Realm/Realm/ObjectStore/src/results.cpp:611-616 | for any ordering without limit, filtering first gives the same rows if that holds at every removal of duplicates, and with one removal only then |
| `Orderings.EarlierSortsMatter` | Example/Pods/Realm/Realm/ObjectStore/src/results.cpp:602-609 | earlier sorts may be dropped before a new one if and only if they leave each group of rows with equal new key as it is |
| `Deletions.EmptyAfterDeleting` | Example/Pods/Realm/Realm/ObjectStore/src/results.cpp:442-460 | deleting the rows shown leaves none to show if and only if all matching rows were shown or the limit is zero |
| `Deletions.DeletingUncoversRows` | Example/Pods/Realm/include/results.hpp:113-116 | a limited query of two rows shows the second after the first is deleted, though size is documented to be zero |
| `Deletions.NarrowingUncoversRows` | Example/Pods/Realm/include/results.hpp:118-119 | with duplicates removed, filtering first shows a row that was not shown before |
| `Deletions.SecondRemovalCoversAgain` | Example/Pods/Realm/Realm/ObjectStore/src/results.cpp:611-616 | with two removals of duplicates the second may hide again what the first has uncovered |
| `Deletions.ResortingShowsFirstSort` | Example/Pods/Realm/Realm/ObjectStore/src/results.cpp:602-609 | whether an earlier sort is kept can be seen in the rows |
| `ResultsModes.Results.Size` | Example/Pods/Realm/Realm/ObjectStore/src/results.cpp:127-144 | the number of rows represented, in every mode, without changing them and without running a query that removes no duplicates |
| `ResultsModes.Results.TryGet` | Example/Pods/Realm/Realm/ObjectStore/src/results.cpp:184-211 | a row, or the place of a deleted one in a snapshot, exactly below the size |
| `ResultsModes.Results.Get` | Example/Pods/Realm/Realm/ObjectStore/src/results.cpp:213-219 | succeeds if and only if the index is below the size, which the failure reports |
| `ResultsModes.Results.Last` | Example/Pods/Realm/Realm/ObjectStore/src/results.cpp:227-234 | the last row if there is one, an index of -1 meaning none |
| `ResultsModes.Results.UpdateLinkView` | Example/Pods/Realm/Realm/ObjectStore/src/results.cpp:236-247 | a sorted list becomes a query and then a view of the same rows, in every state of the database |
| `ResultsModes.Results.EvaluateQueryIfNeeded` | Example/Pods/Realm/Realm/ObjectStore/src/results.cpp:249-275 | a query becomes a view of the same rows, in every state of the database, marked as used and, where it can be, watched for changes; a snapshot is left alone |
| `ResultsModes.Results.IndexOf` | Example/Pods/Realm/Realm/ObjectStore/src/results.cpp:277-307 | the first position of the row among those represented; detached rows and rows of another table are refused, in that order of checks |
| `ResultsModes.Results.PrepareForAggregate` | Example/Pods/Realm/Realm/ObjectStore/src/results.cpp:341-363 | what is aggregated over are the rows represented; a column equal to the column count is let through and its type read; other columns need a supported type |
| `ResultsModes.Results.QueryDescribesRows` | Example/Pods/Realm/Realm/ObjectStore/src/results.cpp:485-513 | that query with the ordering finds the rows represented |
| `ResultsModes.Results.QueryOfView` | Example/Pods/Realm/Realm/ObjectStore/src/results.cpp:492-497 | of a view, a snapshot included, it is the query that made the view, or one for those of its rows that still exist |
| `ResultsModes.Results.GetTableView` | Example/Pods/Realm/Realm/ObjectStore/src/results.cpp:515-533 | the rows represented |
| `ResultsModes.Results.FilteredBy` | Example/Pods/Realm/Realm/ObjectStore/src/results.cpp:611-616 | in every mode the matches that meet the condition, ordered; these are the rows shown that meet it if no removal of duplicates uncovers a row, and with one removal only then; refused after a limit |
| `ResultsModes.Results.SortedBy` | Example/Pods/Realm/Realm/ObjectStore/src/results.cpp:602-609 | what the query finds, sorted; a list sorted before and not yet read loses its first sort, and shows its rows re-sorted if and only if that sort moves no two rows of equal new key |
| `ResultsModes.Results.LimitedTo` | Example/Pods/Realm/Realm/ObjectStore/src/results.cpp:618-623 | the first rows of what the query finds, which are the rows shown unless this is a snapshot or a view without query |
| `ResultsModes.Results.DistinctOn` | Example/Pods/Realm/Realm/ObjectStore/src/results.cpp:649-654 | the same without later duplicates |
| `ResultsModes.Results.Clear` | Example/Pods/Realm/Realm/ObjectStore/src/results.cpp:430-466 | deletes exactly the rows shown, on a partially synchronised Realm too; a snapshot keeps its places, and an updating object shows nothing after it under an exact condition |
| `ResultsModes.Results.Freeze` | Example/Pods/Realm/Realm/ObjectStore/src/results.cpp:683-705 | the object becomes a snapshot of its rows, without notifier |
| `ResultsModes.Results.Snapshot` | Example/Pods/Realm/Realm/ObjectStore/src/results.cpp:677-705 | a snapshot of the rows, the object staying as it is; its query goes on finding what the object represents |
| `ResultsModes.Results.PrepareAsync` | Example/Pods/Realm/Realm/ObjectStore/src/results.cpp:707-740 | a notifier is made, with the query and ordering held then, if and only if nothing stands in the way and it is forced or can deliver and has something to run; each refusal by its cause, in order |
| `ResultsModes.Results.SetTableView` | Example/Pods/Realm/Realm/ObjectStore/src/results.cpp:764-778 | what the notifier has found, with the query it was made with, is delivered without changing the rows represented, and never to a snapshot; whether more is wanted depends on whether the view before was used |
| `ResultsRuns.Run` | Example/Pods/Realm/Realm/ObjectStore/src/results.cpp:127-778 | over any run of reads, deliveries, deletions and commits the rows represented stay the same function of the database, also for raw views and for results of nothing; a snapshot keeps its rows and sizes, its mode and its lack of a notifier |
| `ResultsRuns.SnapshotStays` | Example/Pods/Realm/Realm/ObjectStore/src/results.cpp:677-705 | a snapshot after any run, whatever happens to it or to the database, shows what was shown when it was taken |
| `ResultsExamples.FilterUncoversRow` | Example/Pods/Realm/Realm/ObjectStore/src/results.cpp:611-616 | a run in which filtering shows a row that was not shown |
| `ResultsExamples.ClearUncoversRow` | Example/Pods/Realm/Realm/ObjectStore/src/results.cpp:442-460 | a run in which results of size one still have size one after they are cleared |
| `ResultsExamples.ReadingKeepsFirstSort` | Example/Pods/Realm/Realm/ObjectStore/src/results.cpp:602-609 | a run in which reading a sorted list decides what sorting it again shows |
| `ResultsExamples.LimitOfSnapshot` | Example/Pods/Realm/Realm/ObjectStore/src/results.cpp:492-497 | the first rows of a snapshot are those of the results it was taken from, as the database changes |
| `ResultsExamples.UnreadDeliveriesStop` | Example/Pods/Realm/Realm/ObjectStore/src/results.cpp:764-778 | after a second delivery more are wanted if and only if the rows were read in between |
| `Lists.List.SetIfDifferent` | Example/Pods/Realm/include/list.hpp:236-246 | writes only a different value |
| `Lists.List.Update` | Example/Pods/Realm/include/list.hpp:260-275 | the list ends with the values, by setting exactly the differing positions, adding a longer tail or removing the rest, in as few writes as there are differences; the recorded writes replayed on the old list make the new one |
| `Lists.List.Replace` | Example/Pods/Realm/include/list.hpp:276-281 | the list ends with the values, by clearing and adding; the recorded writes replayed make the same |
| `Lists.List.Assign` | Example/Pods/Realm/include/list.hpp:249-282 | whatever the policy the list ends with the values; itself changes nothing and null clears it |

## Left out

- IndexSets.IndexSet.Count: states what the walk returns with its early exit; exactness is conditional, see `CountExactIff`.
- IndexSets.IndexSet.AddShiftedBy: validity is conditional on the tail copy, because the code miscounts otherwise.
- IndexSets.IndexSet.Remove: validity is conditional on the interval, because the code splits for nothing otherwise.
- IndexSets.IndexSet.RemoveAll: for distinct sets only, because the original goes on iterating over chunks that it erases from.
- IndexSets.IndexSet.InsertAtAll: for sets of one chunk capacity, which is a constant of the original.
- ResultsModes.Results.SetTableView: a delivery is brought up to date with the database first, as the assertion at results.cpp:776 demands; how the coordinator sees to that is left out.
- ResultsModes.Results.FilteredBy: with more than one removal of duplicates the condition is sufficient only; `SecondRemovalCoversAgain` shows that it is then not necessary.
- ResultsModes.Results.Clear: that the view is out of date after `TableView::clear` is an assumption about code not in the repository.
- ResultsRuns.Run: a raw view, made without a query, is neither cleared nor delivered to, which would lose rows for good, and results of nothing are not observed.
- Aggregates themselves; which column types they support is a parameter.
- Invalidation of iterators by reallocation, and pointer arithmetic: iterators are values here.
- `IndexSet`'s initializer-list constructor: a loop of `add`.
- Typed values in `Results` and `index_of` with a query; the audit log; partial synchronisation but for what `clear` does differently.
- The database engine: queries are conditions on rows, sorts are stable and applied in turn, counting is counting matches, and a view is refreshed by running its query again.
- Exceptions thrown by a function the dispatcher calls, and the platform's event loop signal, taken to be sticky and to run its callback in the end.
- Message texts, and the type names in them; `ObjectSchema` read from a file; schema comparison and migration.
- Objects created while a list is assigned: values are taken as already unboxed.
- Change calculation, the scheduling of notifiers, the coordinator and synchronisation: subjects of their own. Of `ResultsNotifier` only the query and ordering it captures and runs are modelled (results_notifier.cpp:26-34, 162-178).
