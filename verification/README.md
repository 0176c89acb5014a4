# Block layer, AIO and core dump: a Dafny model

This project models eight components of the Linux 3.18 kernel sources and proves what they promise over every input,
every run or every reachable state. The Dafny code follows the form of the C code. Structures that are updated in
place are classes with fields, loops are loops with invariants, and each method is proved against a function of the old
state. What the component promises is then proved about those functions, mostly as invariants of a state machine whose
steps are the atomic steps of the code.

| component | files | main results |
|---|---|---|
| AIO completion ring | `Aio`, `AioProtocol`, `AioKioctx` | no overflow, slot conservation, first-in-first-out delivery, capacity |
| I/O throttling | `ThrottleRate`, `ThrottleOps`, `ThrottleQnodes`, `ThrottlePending`, `ThrottleState`, `ThrottleData`, `ThrottleFifo`, `ThrottleOrder`, `ThrottleWitness` | rate bounds over whole runs, conservation over the tree, complete drain, when exactly a group keeps its order |
| Segment counting and mapping | `Segments`, `SegmentPasses`, `MergeHistory`, `BlockRequest` | mapping never exceeds the count, over any history of merges |
| Deadline scheduler | `Deadline`, `DeadlineSched`, `DeadlineData` | indexes agree, bounded starvation, expiry service |
| Bio completion trees | `BioChain`, `BioErrors`, `BioSerial`, `BioRace`, `BioPool` | ends once and last; when exactly the error is right |
| blk-mq tags | `TagBitmap`, `TagSet`, `TagProtocol`, `TagSearch` | the bitmap is a set of free tags; what a contended search can miss |
| Core dump | `CoreFile`, `CoreDump` | when a dump succeeds; announced offsets are the positions reached |
| Discard and protection information | `Discard`, `ProtectionInfo`, `IntegrityIter` | exact aligned cover and what a discard returns; generate and verify agree |

`Arith` holds the arithmetic and sums they share. Time, allocation results, copy results, locks won and lost, and the
checksum are parameters or steps chosen freely.

## Where a promise fails

Some promises do not hold on all inputs. Each is stated with the condition under which it does.

- A context for `n` events can refuse a request before `n` are in use exactly when `2 * n` wraps 32 bits
  (`AioProtocol.CapacityExact`), and there are such contexts (`AioProtocol.WrappedContext`).
- `nr_phys_segments` exceeds `max_segments` exactly on a request that is still the single bio it began with and was too
  big from the start (`MergeHistory.HistorySound`), and every bio that is too big gives one
  (`MergeHistory.TooBigCanStart`).
- When `bio_endio` calls overlap, the root can be told of success although a bio of its tree failed: a failure recorded
  between the test of `BIO_UPTODATE` and the drop of `bi_remaining` is lost. Over all interleavings the root is told the
  truth exactly when all bios of the tree fail or all succeed (`BioRace.ErrorLawExact`). When calls do not overlap it is
  always right (`BioSerial.SerialErrorLaw`).
- The notes of a core dump start where the headers say exactly when `map_count` is the number of mappings
  (`CoreLayout.NotesStart`), the final position is the running offset exactly when there are fewer than `PN_XNUM`
  segments (`CoreDump.FinalPosition`), and the notes written are the ones announced exactly when no thread has extended
  but no plain floating-point registers; at such a hole the code faults on a note without a name
  (`CoreLayout.ThreadNotesAgree`).
- For protection type 2, verify refuses what generate wrote, but for one interval whose reference is zero
  (`ProtectionInfo.RoundTrip`, `ProtectionInfo.ZeroRefsExactly`). The two functions take that type, but no profile of
  block/t10-pi.c gives it to them: all pass 1 or 3.
- A search for a tag that is alone fails only when every tag is busy (`TagSet.Bitmap.Search`). Among other CPUs it still
  does not miss a tag that is free all the while (`TagSearch.NothingMeansSeenBusy`), but it can fail although at every
  moment some tag is free, exactly when there are two tags or more (`TagSearch.CanMissExactly`).
- Throttled bios are issued without the lock: by the worker from its list, by a drain, or by the submitter of a bio that
  is let through. The order of a group is safe from every timing of these issues exactly when each step under the lock
  meets a guard: a bio is let through only while none of its group is queued or in anybody's hands, and is taken off the
  device's queue only by the one who has the others of its group (`ThrottleOrder.GroupFifo`). The code does not always
  meet it. A group with 10000 bytes a second holds back 1500 bytes at tick 1 and passes them to the device at tick 151.
  100 bytes are let through at that tick and can be issued first, while the others are on the device's queue
  (`ThrottleWitness.Overtaking`) and while they are on the worker's list (`ThrottleWitness.OvertakingTheWorker`).

## Model

| member | source | states |
|---|---|---|
| `AioSizing.RingFits` | fs/aio.c:374-402 | the ring of the pages set up has room for the events asked for and two more, and fills its pages up to the header |
| `AioSizing.BatchQuarter` | fs/aio.c:685-688 | one batch for every CPU is at most a quarter of the ring |
| `AioContext.PutConserves` | fs/aio.c:829-844 | giving slots back keeps the sum of all places a slot can be, and leaves the CPU below two batches |
| `AioContext.GetConserves` | fs/aio.c:846-874 | taking a slot, from the CPU or with a batch from the global counter, keeps that sum |
| `AioContext.RefillConserves` | fs/aio.c:883-906 | a refill moves completed slots to the free ones and keeps the sum, for any head value |
| `AioContext.CountConserves` | fs/aio.c:1066-1078 | counting a completion, with the refill it may cause, keeps the sum |
| `AioProtocol.SlotConservation` | fs/aio.c:685-688 | in every run from a new context, with any values the user writes to head, free, per-CPU, in-flight and completed slots add up to `nr_events - 1` and no CPU holds two batches |
| `AioProtocol.RefillKeepsCover` | fs/aio.c:883-906 | after a refill from the true head, `completed_events` is exactly the number of unread events |
| `AioProtocol.StoreKeepsInv` | fs/aio.c:1042-1064 | storing an event keeps the ring equal to the unread end of the completion sequence |
| `AioProtocol.CopyIsLog` | fs/aio.c:1140-1167 | a stretch of slots that stops at the end of the ring is a stretch of the completion sequence |
| `AioProtocol.ReadCopyKeepsInv` | fs/aio.c:1140-1173 | each copy of a reader continues what it has delivered, although completions go on meanwhile |
| `AioProtocol.InvInRuns` | fs/aio.c:829-1177 | every interleaving of submit, complete, count, refill and the steps of a read keeps the ring invariant |
| `AioProtocol.NoOverflow` | fs/aio.c:883-906 | in every such run unread events are at most `completed_events` plus the one being counted, at most `nr_events - 1`, and a completion never lands on an unread event |
| `AioProtocol.FifoDelivery` | fs/aio.c:1140-1177 | all batches returned, one after the other, are a prefix of the completion sequence |
| `AioProtocol.HiddenSlots` | fs/aio.c:642-643 | slots that sit on other CPUs or below one batch are less than half of the ring |
| `AioProtocol.NoSlotMeansUnread` | fs/aio.c:942-950 | when no slot is found even after a refill, every completed event counted is unread |
| `AioProtocol.SizedForRequest` | fs/aio.c:642-643 | without a wrap the ring has two slots for each event asked for, and a batch per CPU is a quarter of it |
| `AioProtocol.Capacity` | fs/aio.c:942-950 | a request is refused only when more requests are in flight or unread than the context was made for, if the doubling does not wrap |
| `AioProtocol.CapacityLostOnWrap` | fs/aio.c:642-643 | for every request of 2^31 or more there is a run, with head moved by the reader only, that refuses with no more in use than asked for |
| `AioProtocol.CapacityExact` | fs/aio.c:942-950 | over all runs and CPUs, refusal means that more is in use than the context was made for if and only if the doubling does not wrap |
| `AioProtocol.WrappedContext` | fs/aio.c:642-643 | such a context exists: 2^31 + 100 events asked for on one CPU give a ring of 255 |
| `AioPages.SlotLocation` | fs/aio.c:467-469 | every slot lies in a page of the ring and clear of the header |
| `AioPages.SlotsDistinct` | fs/aio.c:467-469 | no two slots share a page and index |
| `AioPages.FlatStore` | fs/aio.c:1042-1054 | writing one event in its page changes that slot of the ring and no other |
| `AioPages.FlatCopy` | fs/aio.c:1153-1162 | a stretch within one page is a stretch of the ring |
| `AioKioctx.Kioctx.PutReqsAvailable` | fs/aio.c:829-844 | the loop over batches returns exactly the whole batches beyond two and keeps the rest on the CPU |
| `AioKioctx.Kioctx.GetReqsAvailable` | fs/aio.c:846-874 | takes from the CPU, or a whole batch from the global counter, or refuses and changes nothing |
| `AioKioctx.Kioctx.RefillReqsAvailable` | fs/aio.c:883-906 | frees at most the completed events that the given head shows as read |
| `AioKioctx.Kioctx.UserRefillReqsAvailable` | fs/aio.c:912-936 | a refill from the head in the shared page, only when events are completed |
| `AioKioctx.Kioctx.AioGetReq` | fs/aio.c:942-963 | one retry after a refill; a failed allocation puts the slot back |
| `AioKioctx.Kioctx.AioComplete` | fs/aio.c:1004-1079 | stores the event at the tail slot, in the right page, publishes the tail and counts the completion |
| `AioKioctx.Kioctx.CopyPage` | fs/aio.c:1150-1162 | one copy takes the events up to the end of the page, the ring or the wish, and faults only if the copy does |
| `AioKioctx.Kioctx.CopyEvents` | fs/aio.c:1143-1173 | the page-by-page copy yields the next events of the ring in order, as many as are there and wanted, and faults if and only if one of the copies needed for that fails |
| `AioKioctx.Kioctx.AioReadEventsRing` | fs/aio.c:1113-1185 | returns those events and moves head past them; an error if and only if there are events and a copy needed for them fails, and then head stays |
| `ThrottleRate.RefusedAgain` | block/blk-throttle.c:907-957 | a refusal names a wait of at least one tick, and the same question at the same time gets the same answer and changes nothing |
| `ThrottleRate.AllowanceBound` | block/blk-throttle.c:820-837 | what a slice allows is at most the rate for the time passed and one slice |
| `ThrottleRate.MeterTrim` | block/blk-throttle.c:753-809 | trimming forgets no more than the dropped slices allowed |
| `ThrottleRate.MeterRestart` | block/blk-throttle.c:715-725 | by the time a slice is used up, all that was dispatched in it has been allowed |
| `ThrottleRate.NoByteWrap` | block/blk-throttle.c:861-901 | the 64-bit byte counter of a limited group never wraps |
| `ThrottleRate.BytesRateBound` | block/blk-throttle.c:715-957 | in every run of asking, charging and trimming, a group with a byte limit has dispatched at most `bps` times the time since its first slice and one slice more, products that overflow included |
| `ThrottleOps.ShareOfRest` | block/blk-throttle.c:831-837 | what a 64-bit product allows is at most the true product less the whole 2^64 it has lost |
| `ThrottleOps.GrantWithinOwed` | block/blk-throttle.c:811-859 | a granted operation with what lost products owe stays within the rate for the time passed and one slice |
| `ThrottleOps.PaidWrap` | block/blk-throttle.c:985-991 | the 32-bit operation counter can wrap only where a lost product has already paid for the operations it forgets |
| `ThrottleOps.LowAfterTrim` | block/blk-throttle.c:753-809 | trimming leaves the counter below one slice's worth unless a product wrapped since it was charged |
| `ThrottleOps.TrimPays` | block/blk-throttle.c:753-809 | trimming keeps the account of what was dispatched, counted and owed, wraps included |
| `ThrottleOps.IosRateBound` | block/blk-throttle.c:715-957 | in every run, of any length, a limited group has dispatched at most `iops` times the time since its first slice and one slice more: neither overflowing products nor the wrapping counter let it exceed that |
| `ThrottleData.ThrotlData.StartNewSlice` | block/blk-throttle.c:715-725 | the group's slice becomes the one the rate bounds are proved about: from now, for one slice, nothing charged; no other slice changes |
| `ThrottleData.ThrotlData.ExtendSlice` | block/blk-throttle.c:733-741 | the slice ends at the first slice boundary from the given time on |
| `ThrottleData.ThrotlData.TrimSlice` | block/blk-throttle.c:753-809 | a slice in use loses its whole passed slices and what they allowed; a used one stays |
| `ThrottleData.ThrotlData.WithinIopsLimit` | block/blk-throttle.c:811-859 | the answer and wait of the operation limit, with its 32-bit wrap and clamp |
| `ThrottleData.ThrotlData.WithinBpsLimit` | block/blk-throttle.c:861-901 | the answer and wait of the byte limit, with its 64-bit products |
| `ThrottleData.ThrotlData.TgMayDispatch` | block/blk-throttle.c:907-957 | the decision, wait and renewed or extended slice that the rate bounds are proved about; no other slice changes; all callers meet its `BUG_ON`: with bios queued, the one asked about is the first of them |
| `ThrottleData.ThrotlData.ChargeBio` | block/blk-throttle.c:985-991 | bytes and one operation are charged, in 64 and 32 bits |
| `ThrottleQnodes.AddLoad` | block/blk-throttle.c:323-331 | adding a bio to a qnode adds it to the qnode's own service queue and touches no other |
| `ThrottleQnodes.AddPlaced` | block/blk-throttle.c:323-331 | after an add a qnode is still listed, once, if and only if it holds bios |
| `ThrottleQnodes.PopLoad` | block/blk-throttle.c:364-387 | a listed qnode has a bio to give, and popping removes that one bio from that queue only |
| `ThrottleQnodes.PopPlaced` | block/blk-throttle.c:364-387 | after a pop a qnode is still listed if and only if it holds bios |
| `ThrottleQnodes.ReadyToDispatch` | block/blk-throttle.c:1078-1113 | a group with a listed qnode is counted in its own and the device's number, so the `BUG_ON` on the device's count never fires |
| `ThrottleQnodes.DispatchMoves` | block/blk-throttle.c:1078-1118 | a dispatch moves one bio from the group's queue to its parent's and every other queue holds what it held |
| `ThrottleQnodes.DispatchKeeps` | block/blk-throttle.c:1078-1118 | a dispatch keeps every `nr_queued` equal to the bios held and the device's count equal to their sum |
| `ThrottleQnodes.SubmitKeeps` | block/blk-throttle.c:1563-1566 | queueing a new bio keeps those equalities |
| `ThrottleQnodes.IssueKeeps` | block/blk-throttle.c:1274-1276 | issuing from the device's queue keeps them |
| `ThrottleQnodes.EmptyIffUncounted` | block/blk-throttle.c:1172-1173 | `nr_queued` is zero if and only if no qnode is listed |
| `ThrottlePending.FirstIsLeast` | block/blk-throttle.c:552-566 | the cached first child is there whenever any child is pending and has the least dispatch time |
| `ThrottlePending.EnqueueKeeps` | block/blk-throttle.c:594-633 | enqueueing keeps the trees sorted, the caches right, and the flag equal to being in the parent's tree |
| `ThrottlePending.DequeueKeeps` | block/blk-throttle.c:574-645 | dequeueing keeps the same and takes off that group only |
| `ThrottlePending.RequeueKeeps` | block/blk-throttle.c:1044-1066 | a changed dispatch time is always filed under its new key |
| `ThrottleState.DispatchInv` | block/blk-throttle.c:1078-1118 | a dispatch keeps all at once: counts, one reference per listed qnode, sorted trees, and every group with bios pending but the one being dispatched |
| `ThrottleState.SubmitInv` | block/blk-throttle.c:1563-1566 | queueing a bio keeps all that, with its group pending |
| `ThrottleState.IssueInv` | block/blk-throttle.c:1274-1276 | issuing keeps all that, and the reference put was held |
| `ThrottleState.NoneBusy` | block/blk-throttle.c:1595-1599 | where no child is pending, no child has a bio |
| `ThrottleData.ThrotlData.constructor` | block/blk-throttle.c:390-440 | a tree of groups with nothing queued meets the whole invariant |
| `ThrottleData.ThrotlData.QnodeAddBio` | block/blk-throttle.c:323-331 | the bio is last on its qnode; a qnode not yet listed goes to the end of the list and takes a reference |
| `ThrottleData.ThrotlData.PopQueued` | block/blk-throttle.c:364-387 | round-robin: the first qnode gives its first bio and goes to the end, or leaves the list and names the group to put |
| `ThrottleData.ThrotlData.AddBioTg` | block/blk-throttle.c:1020-1042 | the bio is queued and counted, the group pending, and flagged if it was empty |
| `ThrottleData.ThrotlData.TgDispatchOneBio` | block/blk-throttle.c:1078-1118 | the first bio goes one level up; it is charged, the parent gets its credit and the slice is trimmed, no other slice changes; and the whole invariant is kept |
| `ThrottleData.ThrotlData.TryDispatch` | block/blk-throttle.c:1130-1137 | the bio goes up exactly when the rate allows it, and the slice takes the step of the metered runs that the rate bound is about |
| `ThrottleData.ThrotlData.DispatchTg` | block/blk-throttle.c:1120-1151 | up to 6 reads and 2 writes go up, none lost, and fewer only if there are no more or the rate refuses the next |
| `ThrottleData.ThrotlData.UpdateDisptime` | block/blk-throttle.c:1044-1066 | the group is pending under the earlier of the times its first read and first write may go, and its slices are as asking for those left them |
| `ThrottleData.ThrotlData.SelectDispatch` | block/blk-throttle.c:1153-1179 | terminates, with a clock that moves on between children; loses no bio; and unless it stopped on its quantum no child is left due at the last reading |
| `ThrottleData.ThrotlData.BlkThrotlBio` | block/blk-throttle.c:1521-1579 | a bio let through found nothing queued at any level, and every level allowed it and was charged; one held back is queued at the first level that has bios or refuses, behind levels that are empty, allowed it and were charged; the first one of a group is due no later than the wait it was given |
| `ThrottleData.ThrotlData.PopAll` | block/blk-throttle.c:1274-1277 | exactly the bios that reached the device are taken off its queue |
| `ThrottleData.ThrotlData.TakeDispatched` | block/blk-throttle.c:1272-1278 | the worker's list gets exactly the reads and then the writes that reached the device |
| `ThrottleData.ThrotlData.TgDrainBios` | block/blk-throttle.c:1601-1616 | terminates; all bios of the children are on the parent, no child is pending, other groups stand |
| `ThrottleData.ThrotlData.BlkThrotlDrain` | block/blk-throttle.c:1624-1658 | terminates; every bio queued anywhere is issued exactly once, and no bio, count, pending group or reference is left |
| `ThrottleFifo.DispatchOrder` | block/blk-throttle.c:1078-1118 | a dispatch leaves the waiting bios of every group in the same order |
| `ThrottleFifo.SubmitOrder` | block/blk-throttle.c:1521-1566 | a bio held back is the last of its group |
| `ThrottleFifo.IssueOrder` | block/blk-throttle.c:1274-1276 | a bio issued from the device's queue is the first of its group |
| `ThrottleOrder.StepInOrder` | block/blk-throttle.c:1078-1283 | every step that meets the guard keeps a group's submitted bios equal to those issued, then those in somebody's hands, then those in the tree |
| `ThrottleOrder.SendTakesFirst` | block/blk-throttle.c:1280-1283 | what is issued from hands that have all of a group is the first of the group |
| `ThrottleOrder.StraightPrefix` | block/blk-throttle.c:1521-1559 | after a bio is let through and issued at once, what its group has issued is a prefix of what it submitted if and only if none of the group was pending |
| `ThrottleOrder.StraightPending` | block/blk-throttle.c:1521-1559 | all that can be pending then are bios in hands and bios its top group has passed to the device |
| `ThrottleOrder.UnguardedBreaks` | block/blk-throttle.c:1261-1283 | after any step that does not meet the guard there is a sequence of issues that breaks the order |
| `ThrottleOrder.OvertakenInRuns` | block/blk-throttle.c:1078-1283 | an order once broken stays broken, whatever follows |
| `ThrottleOrder.GroupFifo` | block/blk-throttle.c:25-52 | over every run from an idle device, the order of a group is kept at every point and for every timing of the issues if and only if each step under the lock meets the guard, whatever the round-robin does |
| `ThrottleTimes.RefusedAtFirst` | block/blk-throttle.c:861-957 | at 10000 bytes a second, 1500 bytes are refused at tick 1 for 150 ticks |
| `ThrottleTimes.GrantedWhenDue` | block/blk-throttle.c:861-957 | and granted at tick 151 |
| `ThrottleTimes.GrantedAtOnce` | block/blk-throttle.c:861-957 | and 100 bytes more are granted at the same tick, once the first are charged and trimmed |
| `ThrottleWitness.Overtaking` | block/blk-throttle.c:1521-1559 | the calls of a device with one such group, with those limits, sizes and times, end with the second bio issued while the first is on the device's queue |
| `ThrottleWitness.OvertakingTheWorker` | block/blk-throttle.c:1272-1283 | and so they do when the worker has taken the first off the queue and dropped the lock: the second is issued first, then the first |
| `Segments.CountCuts` | block/blk-merge.c:41-87 | the counting pass cuts the data into segments that respect the size limit and joinability and flatten to the data |
| `Segments.MapCuts` | block/blk-merge.c:159-244 | so does the mapping pass |
| `Segments.StaysAhead` | block/blk-merge.c:159-200 | if any sound cut joins the next stretch, the greedy mapper joins it too or is still ahead |
| `Segments.MapIsLeast` | block/blk-merge.c:202-244 | no sound cut of the same data has fewer segments than the mapper emits |
| `Segments.MapWithinCount` | block/blk-merge.c:313 | the mapper emits at most as many entries as were counted, although it ignores high memory |
| `SegmentPasses.RecalcRqSegments` | block/blk-merge.c:13-88 | the loop computes the number of segments of the whole list and the front and back sizes |
| `SegmentPasses.RecountSegments` | block/blk-merge.c:99-121 | the bio gets the count and sizes of its own data |
| `SegmentPasses.SegmentMapSg` | block/blk-merge.c:159-200 | one stretch extends the last entry or opens the next, as the greedy cut does |
| `SegmentPasses.BiosMapSg` | block/blk-merge.c:202-244 | a list with room for the segments counted is never overrun and ends up holding the addresses and lengths of the greedy cut |
| `MergeHistory.ContigGlues` | block/blk-merge.c:124-157 | why the decrement is right: the front and back sizes bound the two segments that become one |
| `MergeHistory.JoinBacked` | block/blk-merge.c:318-342 | lists put one after the other keep counts that back a sound cut |
| `MergeHistory.GlueBacked` | block/blk-merge.c:391-430 | joined lists with the decremented count still back a sound cut, with the sizes written |
| `MergeHistory.ResizeBacked` | block/blk-merge.c:414-423 | sizes written before a merge is refused stay upper bounds |
| `MergeHistory.RefusedMergeBacked` | block/blk-merge.c:482-557 | a refused merge leaves both requests sound |
| `MergeHistory.AppendConcatenates` | block/blk-map.c:12-26 | an accepted bio goes to the end of the data; a refused one changes no data |
| `MergeHistory.PrependConcatenates` | block/blk-merge.c:362-379 | a bio merged in front goes before the data; a refused one changes no data |
| `MergeHistory.PrependBacked` | block/blk-merge.c:362-379 | a front merge, accepted or refused, keeps a count that backs a sound cut |
| `MergeHistory.MergeConcatenates` | block/blk-merge.c:482-557 | the merged data is the first list then the second |
| `MergeHistory.HistorySound` | block/blk-merge.c:318-430 | after every history of starts, appends, front merges and merges of requests, `nr_phys_segments` is at least what mapping takes, and within `max_segments` if and only if the request is not a single bio that began too big |
| `MergeHistory.TooBigCanStart` | block/blk-map.c:12-26 | every bio of more segments than the limit begins a request that exceeds it |
| `MergeHistory.CountedBioFits` | block/blk-merge.c:300-316 | mapping a bio never takes more entries than its valid count |
| `BlockRequest.PhysContigSegment` | block/blk-merge.c:124-157 | the loop that finds the last stretch decides contiguity of the two ends |
| `BlockRequest.Request.AppendBio` | block/blk-map.c:12-26 | starts an empty request or appends with the limits of `ll_back_merge_fn`, in place |
| `BlockRequest.Request.PrependBio` | block/blk-merge.c:362-379 | merges a bio in front with the limits of `ll_front_merge_fn`, in place |
| `BlockRequest.Request.AttemptMerge` | block/blk-merge.c:482-557 | merges in place as the history theorem has it; the second request gives up its bios |
| `DeadlineLists.InsertKeeps` | block/deadline-iosched.c:77-82 | insertion keeps the sort list ordered and duplicate-free with one more entry |
| `DeadlineLists.TakeOverKeeps` | block/deadline-iosched.c:168-187 | taking over an earlier place and time keeps the fifo ordered, and nobody moves back |
| `DeadlineSched.DispatchKeeps` | block/deadline-iosched.c:243-325 | what is dispatched was queued; nothing is dispatched if and only if nothing is queued; the invariant is kept |
| `DeadlineSched.InvStep` | block/deadline-iosched.c:98-325 | add, front merge, merge, tick and dispatch keep both indexes holding the same requests, at most one `next_rq`, queued, and fifo times ordered |
| `DeadlineSched.IndexesAgree` | block/deadline-iosched.c:98-325 | so in every reachable state |
| `DeadlineSched.ReadSpendsBudget` | block/deadline-iosched.c:254-294 | each read sent past a queued write uses up one of a finite budget |
| `DeadlineSched.BudgetBounds` | block/deadline-iosched.c:262-279 | the budget is below `(writes_starved + 1) * max(1, fifo_batch)` |
| `DeadlineSched.WriteStarvationBound` | block/deadline-iosched.c:243-325 | in every run that keeps a write queued and dispatches only reads, fewer than that many are dispatched |
| `DeadlineSched.SelectionTakesHead` | block/deadline-iosched.c:226-313 | once a request has expired, a new batch of its direction starts at the head of the fifo |
| `DeadlineSched.StepMovesUp` | block/deadline-iosched.c:98-325 | no step puts an expired request back or its time off, and each selection of its direction brings it one up |
| `DeadlineSched.ExpiryService` | block/deadline-iosched.c:243-325 | an expired request with k ahead is still waiting after at most k batch selections of its direction |
| `DeadlineData.Scheduler.constructor` | block/deadline-iosched.c:340-370 | empty lists, no batch, nothing starved |
| `DeadlineData.Scheduler.AddRequest` | block/deadline-iosched.c:98-111 | the request enters both indexes of its direction, the fifo with its expiry |
| `DeadlineData.Scheduler.RemoveRequest` | block/deadline-iosched.c:116-122 | it leaves both, and `next_rq` moves to its successor if it was next |
| `DeadlineData.Scheduler.MergedRequest` | block/deadline-iosched.c:154-166 | only a front merge re-sorts |
| `DeadlineData.Scheduler.MergedRequests` | block/deadline-iosched.c:168-187 | the list move, time copy and removal together are the take-over of the specification |
| `DeadlineData.Scheduler.MoveRequest` | block/deadline-iosched.c:204-220 | both `next_rq` are cleared, the successor becomes next, the request leaves |
| `DeadlineData.Scheduler.ChooseDirection` | block/deadline-iosched.c:268-294 | a new batch reads unless there are no reads or they have passed writes over for long enough, and the count of that is kept |
| `DeadlineData.Scheduler.StartBatch` | block/deadline-iosched.c:296-323 | a new batch starts where the specification has it: at the head of the fifo if that has expired or nothing is next |
| `DeadlineData.Scheduler.DispatchRequests` | block/deadline-iosched.c:243-325 | the goto structure computes the dispatch of the specification |
| `BioChain.SourceDue` | block/bio.c:1768-1799 | a completion that has not arrived is still counted, so the `BUG_ON` on `bi_remaining` never fires |
| `BioChain.InvInRuns` | block/bio.c:270-325 | in every run of init, chain and overlapping completions, `bi_remaining` is the number of sources still to arrive |
| `BioChain.DoneBelow` | block/bio.c:1768-1799 | when the root's count is zero, every bio of its tree has completed |
| `BioChain.EndsOnceAfterAll` | block/bio.c:1768-1799 | in every interleaving the root's `end_io` runs at most once and only after the root and all descendants have completed |
| `BioErrors.ReportedErrorHappened` | block/bio.c:1768-1799 | what the root is told, failure or success, is the outcome of at least one bio of its tree |
| `BioSerial.ClimbSettles` | block/bio.c:1768-1799 | the upward loop terminates and leaves no completion half done |
| `BioSerial.SerialErrorLaw` | block/bio.c:1768-1799 | when calls do not overlap, the root's error is non-zero if and only if some bio of its tree failed |
| `BioRace.EndsWhenAllComplete` | block/bio.c:1768-1799 | once every bio of the tree has completed, the root's `end_io` has run exactly once |
| `BioRace.ErrorCanBeLost` | block/bio.c:1768-1799 | for every tree and every bio in it that succeeds there is an interleaving in which all complete and the root is told of no error |
| `BioRace.ErrorLawExact` | block/bio.c:1768-1799 | over all interleavings the root is told the truth if and only if all bios of its tree fail or all succeed |
| `BioPool.Pool.BioInit` | block/bio.c:270-276 | a new bio counts one source and has seen no error |
| `BioPool.Pool.BioChainTo` | block/bio.c:318-325 | the parent counts one more source, and the fields keep showing the tree |
| `BioPool.Pool.BioEndio` | block/bio.c:1768-1799 | the loop over parents has the effect of the specified climb, in place |
| `TagLayout.TagPlace` | block/blk-mq-tag.h:16-17 | every tag below the depth has a word in use and a bit below its depth, and that place gives the tag back |
| `TagLayout.PlaceTag` | block/blk-mq-tag.h:16-17 | every bit in use is the place of a tag below the depth, and of that tag only |
| `TagLayout.DepthsSum` | block/blk-mq-tag.c:440-460 | the word depths add up to the depth |
| `TagLayout.SetBitBusy` | block/blk-mq-tag.c:137-164 | setting or clearing a bit adds or removes one tag of the busy set |
| `TagSet.ChooseWordSize` | block/blk-mq-tag.c:462-491 | the word size is the largest power of two up to a long that still spreads the tags over four words |
| `TagSet.LayOut` | block/blk-mq-tag.c:440-460 | the words laid out are a valid map with nothing busy |
| `TagSet.Bitmap.GetWord` | block/blk-mq-tag.c:137-164 | sets a bit that was clear, or fails only when every bit of the word is set |
| `TagSet.Bitmap.Search` | block/blk-mq-tag.c:177-199 | finds a free tag, or fails only when every tag is busy, from any start |
| `TagSet.Bitmap.Get` | block/blk-mq-tag.c:177-218 | the same with the fair-share check and the cache, which stays below the depth |
| `TagSet.Bitmap.WakePtr` | block/blk-mq-tag.c:317-337 | the first wait queue from the wake index on that has sleepers, or none if none has |
| `TagSet.Bitmap.ClearTag` | block/blk-mq-tag.c:339-362 | exactly this tag is freed; the batch count of the chosen queue goes down and at its last is reset and its sleepers woken |
| `TagSet.Bitmap.HasFreeTags` | block/blk-mq-tag.c:22-36 | true if and only if some tag is free |
| `TagSet.Bitmap.UnusedTags` | block/blk-mq-tag.c:427-438 | the depth less the number of busy tags |
| `TagProtocol.Tags.constructor` | block/blk-mq-tag.c:523-558 | nothing is outstanding |
| `TagProtocol.Tags.GetTag` | block/blk-mq-tag.c:281-315 | the tag is new, in the reserved or the normal range as asked; failure means the whole range is out |
| `TagProtocol.Tags.PutTag` | block/blk-mq-tag.c:364-391 | exactly this tag comes back, and a normal one becomes the cached start |
| `TagProtocol.HeldOnce` | block/blk-mq-tag.c:137-164 | in every interleaving of test-and-set and clear steps, no two holders have the same tag |
| `TagSearch.GetWord` | block/blk-mq-tag.c:137-164 | the loop with its restart scans the word from the last tag on and then up to it, passing over bits lost to others, while the word changes under it |
| `TagSearch.Get` | block/blk-mq-tag.c:177-199 | terminates whatever others do; the tag returned was free when it was taken |
| `TagSearch.RoundCovers` | block/blk-mq-tag.c:186-199 | the round over the words scans every tag |
| `TagSearch.RoundOnce` | block/blk-mq-tag.c:186-199 | and none twice |
| `TagSearch.NothingMeansSeenBusy` | block/blk-mq-tag.c:137-199 | a search that fails has seen every tag busy at some moment, so it never misses one that is free all the while |
| `TagSearch.FoundWasFree` | block/blk-mq-tag.c:160-164 | the tag found was free at the test-and-set that took it |
| `TagSearch.CanMissExactly` | block/blk-mq-tag.c:137-199 | others can make a search fail although at every moment some tag is free, if and only if there are two tags or more |
| `CoreFile.Core.DumpEmit` | fs/coredump.c:758-776 | succeeds if and only if the file stays within the limit and no write fails; success appends exactly the bytes, failure leaves a prefix of them |
| `CoreFile.Core.DumpSkip` | fs/coredump.c:779-799 | succeeds if and only if the file stays within the limit and no seek or write fails; success appends zeros, by seeking or by writing |
| `CoreFile.Core.DumpAlign` | fs/coredump.c:802-808 | pads to the alignment, and only for a power of two, under the same condition |
| `CoreLayout.NotesFill` | fs/binfmt_elf_fdpic.c:1249-1260 | the bytes written for notes are as many as `notesize` adds up to, a multiple of four |
| `CoreLayout.DataFills` | fs/binfmt_elf_fdpic.c:1512-1521 | the bytes dumped of all mappings are as many as the data size announced |
| `CoreLayout.NotesStart` | fs/binfmt_elf_fdpic.c:1616-1670 | the headers end where the notes are announced if and only if `map_count` is the number of mappings |
| `CoreLayout.ThreadNotesAgree` | fs/binfmt_elf_fdpic.c:1424-1456 | over all threads, the slots written are the notes filled in if and only if none has extended without plain floating-point registers; a slot without a name is written if and only if one has |
| `CoreDump.WriteNote` | fs/binfmt_elf_fdpic.c:1262-1272 | header, name and description, each padded to four bytes |
| `CoreDump.DumpSegments` | fs/binfmt_elf_fdpic.c:1477-1510 | the pages of the dumped mappings in order, missing ones as zeros |
| `CoreDump.WriteHeaders` | fs/binfmt_elf_fdpic.c:1708-1730 | a program header per mapping, and the running offset ends at the data offset plus all data |
| `CoreDump.ElfCoreDump` | fs/binfmt_elf_fdpic.c:1665-1769 | a dump succeeds if and only if its image is within the limit and no write fails; it then leaves exactly that image, and warns if and only if the final position is not the running offset |
| `CoreDump.NotesInRange` | fs/binfmt_elf_fdpic.c:1676-1679 | the note bytes fill exactly the range the PT_NOTE header announces |
| `CoreDump.ThreadNotesInRange` | fs/binfmt_elf_fdpic.c:1641-1679 | with the plan made from the notes of all threads and the image from those written, that range holds the notes announced whenever the writing does not fault |
| `CoreDump.MappingAtOffset` | fs/binfmt_elf_fdpic.c:1708-1730 | every dumped mapping is found at the offset and with the size its header gives |
| `CoreDump.FinalPosition` | fs/binfmt_elf_fdpic.c:1756-1769 | the final position is the running offset if and only if there are fewer than `PN_XNUM` segments |
| `Discard.MaxSectors` | block/blk-lib.c:62-72 | the limit is the largest whole number of granules within the device's and the 32-bit byte limit |
| `Discard.NextRange` | block/blk-lib.c:95-109 | each range is non-empty and within the limit, ends aligned unless it is the last, and is less than a granule short of the limit |
| `Discard.SplitDiscard` | block/blk-lib.c:85-130 | terminates; the ranges follow one another without gaps, aligned at every inner boundary, up to the end or the bio that could not be had |
| `Discard.CoverIsExact` | block/blk-lib.c:85-130 | a sector lies in one of the ranges, and one only, if and only if it was asked for |
| `Discard.IssueDiscard` | block/blk-lib.c:40-135 | refused in exactly the cases the source lists; otherwise the exact aligned cover up to its end, which is short of what was asked for if and only if a bio could not be had, each byte count within 32 bits |
| `BioBatch.ZeroOnce` | block/blk-lib.c:18-27 | in every run the count reaches zero exactly once, when the issuer is done and no bio has still to drop it |
| `BioBatch.WaiterWoken` | block/blk-lib.c:134-138 | an issuer that has to wait is woken once, and until then there is a bio that will do so |
| `BioBatch.ReturnMeans` | block/blk-lib.c:18-141 | in every interleaving of flag, count and completion steps, the issuer returns only when no bio will touch the batch any more, and has seen every failure: -EIO if and only if a bio failed for good, else -ENOMEM if and only if one could not be had |
| `BioBatch.DiscardResult` | block/blk-lib.c:40-141 | a discard returns 0 if and only if its ranges cover all that was asked for and no bio failed for good |
| `ProtectionInfo.RoundTrip` | block/t10-pi.c:49-121 | verify accepts what generate wrote, for every checksum, data and seed, if and only if the type is not 2 or all references are zero |
| `ProtectionInfo.ZeroRefsExactly` | block/t10-pi.c:58-63 | for type 2 that is no interval, or one with a zero seed |
| `ProtectionInfo.VerifyMeans` | block/t10-pi.c:73-121 | acceptance means that every tuple that is not escaped has the right guard and, for types 1 and 2, the right reference |
| `ProtectionInfo.SpanExactly` | block/t10-pi.c:54-68 | the loops look at the bytes given and no others if and only if these are a whole number of intervals, and at less than an interval more otherwise |
| `ProtectionInfo.SeedAfterIs` | block/t10-pi.c:66-67 | the seed after k intervals is the seed plus k in 64 bits |
| `ProtectionInfo.GenerateSplits` | block/bio-integrity.c:214-246 | generating two pieces one after the other is generating the whole |
| `ProtectionInfo.VerifySplits` | block/bio-integrity.c:214-246 | verifying two pieces one after the other is verifying the whole |
| `IntegrityIter.Iter.T10Generate` | block/t10-pi.c:49-71 | for any data size, the tuples of the intervals begun are written in place from the cursor on, nothing else is, and cursor and seed advance |
| `IntegrityIter.Iter.T10Verify` | block/t10-pi.c:73-121 | for any data size, the loop decides acceptance of the intervals begun against the tuples at the cursor |
| `IntegrityIter.Iter.ProcessGenerate` | block/bio-integrity.c:214-246 | segment by segment, the buffer gets the tuples of all that the segments cover, as of one piece |
| `IntegrityIter.Iter.ProcessVerify` | block/bio-integrity.c:214-246 | segment by segment, the answer is that for all they cover, as of one piece |
| `IntegrityIter.WholeSegments` | block/bio-integrity.c:214-246 | segments of whole intervals cover exactly the bytes they hold |

## Left out

- AIO: the wait queues, cancellation, `percpu_ref` teardown and page migration; only the ring and its counters are modelled.
- AIO: memory ordering. Each step of the protocol is atomic, as the locks and barriers of the source make it.
- ThrottleRate.BytesRateBound: for a group without children and with fixed limits, because the credit a child's slice gives its parent and a changed limit both start new slices outside the bound. The wrap of jiffies is not modelled.
- ThrottleOps.IosRateBound: as for bytes, for a group without children and with fixed limits.
- Throttling: when the pending timer and the work queue run, which any step of a run may be; statistics and configuration writes; bios marked as already throttled and groups without rules, which pass at once.
- ThrottleData.ThrotlData.SelectDispatch: the clock is read once for each child, not at every test within the child's turn, and it stays below some time during the call, without which the loop need not end.
- ThrottleOrder.GroupFifo: that a step without the guard can break the order is for runs in which a bio that is pending is not submitted again. Bios are submitted in the order in which their submitters take the queue lock.
- ThrottleData.ThrotlData.BlkThrotlDrain: all groups are online for the whole drain. The walk order is given by the numbering of groups, children before parents.
- Segments: discard and write-same bios, DMA padding and drain buffers, and the flag that turns merging of segments off.
- BlockRequest.Request.AppendBio: the sector limit and the integrity check are answers given to it, as they are to PrependBio.
- BlockRequest.Request.AttemptMerge: the checks of `attempt_merge` on flags, direction and position are one answer given to it; mixed merges and accounting are not modelled.
- Deadline: elevator merging (`deadline_merge`) and changes of the settings while requests are queued. Red-black trees are sorted sequences.
- BioPool.Pool.BioChainTo: as the source asks of callers, the bio has no parent yet, neither has completed, and the chain makes no cycle.
- TagSearch.Get: the cached tag it updates is modelled in TagSet.Bitmap.Get only.
- Tags: sleeping in `bt_get`, changes of the depth at run time, and the shared-tag user count behind the fair-share check, whose answer is a parameter of the search.
- CoreDump.ElfCoreDump: `map_count` is the number of mappings, as it is while the mmap lock is held; what happens otherwise is stated by CoreLayout.NotesStart. No extra program headers, and the encodings of headers are parameters.
- CoreFile.Core.DumpSkip: of what a failed call has appended it states only that what was in the file stays, because seeking and writing stop at different points.
- Protection information: the CRC and IP checksums are any function of the data. The memory that the loops look at, up to the end of an interval begun, is there.
- Discard: the plug and the submission path behind `submit_bio`.
