# TurboJS in Dafny

A model of the hardest parts of TurboJS, a JavaScript engine written in C, with proofs that hold for
every input, every run or every reachable state. `dafny verify dfyconfig.toml` checks all of it.

| files | part of the engine |
|---|---|
| `Workers`, `WorkerSafety`, `WorkerSteps`, `WorkerTheorems` | threads that exchange messages over reference-counted pipes, as interleaved atomic steps |
| `WorkerDelivery`, `WorkerLifecycle` | what each worker operation achieves from start to end |
| `Timers`, `TimerTheorems`, `TimerLife`, `Handlers`, `EventLoop` | one thread's loop: timers, descriptor handlers, message ports, job queue |
| `Comparators`, `SortSteps`, `Rqsort`, `TypedSort`, `Binary64` | the in-place sort and the typed-array sorts built on it |
| `TypedArrays`, `TypedSearch` | copyWithin, fill, slice, join and the searches, under resizing |
| `IteratorHelpers`, `IteratorConcat` | lazy iterator helpers and Iterator.concat |
| `NanBoxing` | values packed into 64-bit words |
| `ParallelMoves` | the optimizing tier's resolver of simultaneous register copies |
| `CNames` | names of compiled modules in generated C |
| `Conformance` | sharding and crash recovery of the conformance runner |

## Main results

- Workers. In every reachable state of every interleaving: a live unlocked pipe holds one wake-up byte
  if a message waits and none otherwise; a thread that holds a mutex never blocks, not even in the
  blocking read of the waker, and unlocks within three steps; no deadlock; messages arrive in order and
  once; every reference count is the number of references that exist; everything is freed exactly once
  and nothing that is still referred to is freed. A post appends exactly its message, a take hands over
  exactly the oldest one with a handle for each of its buffers, a new worker gets its two crossed pipes, and
  dropping references takes exactly those away, destroying the pipes that lose their last one.
- Sorting. `rqsort` (quicksort with a three-way partition, a stack of fifty segments, heap sort for deep
  segments, insertion sort for short ones) ends, permutes and never overflows its stack with any
  comparator, and sorts with one that is consistent on the array's elements.
  Hence `TypedArray.prototype.sort` with a consistent comparator is the one stable sort of its input, and
  without one puts NaN last and -0 before +0.
- Timers. Over any run that does not clear it, a one-shot fires at most once, exactly if it has left the list,
  and an interval stays listed with its firings at least one delay apart; neither fires early. No timer fires
  twice at one instant, whatever the callbacks do.
- Event loop. Each poll is entered with an empty job queue; at most one handler runs between two drains; with
  delays that fit in an int and no failure the loop ends exactly when there is nothing to wait for.
- Typed arrays. Whatever resize the argument conversions cause, the block moves equal the byte and
  element loops of section 23.2.3 of ECMA-262 restricted to the part of the view that survived.
- Iterators. Draining a helper gives the list function it stands for; Iterator.concat releases every
  reference it ever took exactly once under any mix of next, return, failure and finalization.

## Where the code does not do what it is for

Each case is kept as it is in the model, with the exact condition under which the property holds.

- `TurboJS_ResolveParallelMoves` is right if and only if the moves contain no cycle
  (`ParallelMoves.Resolve`; `SwapIsWrong` is the smallest case). The repository's own test of it looks only
  at the number of moves produced and at the kind of the first destination. It fails only for a cycle with a
  move whose own register class has no usable scratch location, and exactly then if moves keep their class.
- `lastIndexOf` of a value from -128 to -1 on an Int8Array never finds anything (`TypedSearch.Find`,
  `MissIsWrong`).
- A remaining delay above 2^31 - 1 ms can become a negative or shorter wait, because it passes through an
  `int` (`TimerTheorems.WaitIsExact`, `LongTimerLost`), and can end the loop early
  (`EventLoop.LongTimerEndsLoop`); a timer id above 2^31 - 1 can clear another timer
  (`ClearIsExact`).
- `take(n)` and `drop(n)` reduce n modulo 2^64. They do what ECMA-262 asks for every source, and refuse what
  it refuses, if and only if n is below 2^63 when it is not negative, and stays negative when it is
  (`IteratorHelpers.LimitIsExact`). So 2^63 is refused, and 2^64 and -2^64 both count as zero
  (`LimitExamples`).
- A helper that threw is not necessarily finished. The failing call closes the source; the next call is
  finished if and only if that ended the source, or the rest of the source has nothing to deliver, or take is
  at its limit and closing the source again does not throw (`IteratorHelpers.Helper.Next`;
  `ThrowThenNext` is a map that throws and then yields).
- A compiled file is named without looking at the names in use. Over any run of loads and compilations the
  loaded modules' names are distinct, and all names are distinct if and only if no compiled file's name was in
  use when it was compiled (`CNames.NameAll`; `NameTwice` repeats one). Distinct names still declare a common
  C identifier if and only if one is the other with `_size` appended (`IdentifiersClash`), as for a.js and
  a_size.js (`DeclareTwice`, `SizeStem`).

## What is outside

User code is a parameter: a callback is a function, or a list of what it does to the state. The clock, the
results of poll, the outcomes of test executions and the contents of files are parameters too. Integers are
unbounded except where the code's width matters, where it is written out.

## Model

| member | source | states |
|---|---|---|
| WorkerSafety.LocalKeeps | src/api/turbojs-libc.c:3945-4051 | a step that touches one thread, pipe, buffer and worker object and balances their counts keeps the invariant of the whole system |
| WorkerSteps.NextKeeps | src/api/turbojs-libc.c:4150-4329 | every start, atomic step or failing branch of every thread keeps the invariant |
| WorkerTheorems.ReachableInv | src/api/turbojs-libc.c:2675-2730 | the invariant holds after every interleaving from the start |
| WorkerTheorems.NoLostWakeup | src/api/turbojs-libc.c:2635-2660 | a live unlocked pipe has exactly one wake-up byte if its queue is non-empty and none if it is empty |
| WorkerTheorems.HolderRuns | src/api/turbojs-libc.c:2684-2696 | the holder of a mutex can always step, also at the blocking clear, and unlocks within three steps |
| WorkerTheorems.NoDeadlock | src/api/turbojs-libc.c:4276-4283 | a busy thread can step, or waits for a mutex whose holder is another thread that can |
| WorkerTheorems.Fifo | src/api/turbojs-libc.c:4226-4283 | messages posted are those taken, then those dropped, then those queued, in order; none is dropped while the pipe has a reference |
| WorkerTheorems.CountsAreHolders | src/api/turbojs-libc.c:3955-4007 | a pipe's count is the number of its holders, a buffer's count the number of handles and message entries |
| WorkerTheorems.FreedExactlyOnce | src/api/turbojs-libc.c:4009-4029 | a buffer is freed once, exactly when nothing refers to it; a pipe likewise, once its destruction has finished |
| WorkerTheorems.BuffersInUseAlive | src/api/turbojs-libc.c:4271-4274 | a buffer that a thread holds, sends or receives is alive: the hand-over never reaches zero |
| WorkerTheorems.QueuedBuffersAlive | src/api/turbojs-libc.c:3997-4007 | the buffers of queued messages are alive |
| WorkerTheorems.ThreadPipesAlive | src/api/turbojs-libc.c:4058-4114 | pipes held by a thread's state or arguments are alive |
| WorkerTheorems.ObjectPipesAlive | src/api/turbojs-libc.c:4041-4051 | both pipes of a live worker object are alive |
| WorkerTheorems.NoLeak | src/api/turbojs-libc.c:4031-4051 | when all threads rest without references every pipe and buffer has been freed exactly once |
| WorkerTheorems.CrossedWiring | src/api/turbojs-libc.c:4189-4198 | a worker thread receives what its object sends and the other way round; on each pipe one side posts and the other takes |
| WorkerDelivery.TakesOldest | src/api/turbojs-libc.c:2684-2696 | from an unlocked pipe with messages the receiver, running alone to the unlock, removes exactly the oldest message and records it as taken; the waker is cleared with the last one |
| WorkerDelivery.TakeReceives | src/api/turbojs-libc.c:2675-2704 | run to rest it holds one more handle for each buffer of that message; the other messages, pipes, threads and all counts are as before |
| WorkerDelivery.TakeCommand | src/api/turbojs-libc.c:2675-2704 | the same for the whole operation, from rest to rest |
| WorkerDelivery.TakeFindsNothing | src/api/turbojs-libc.c:2684-2729 | with an empty queue nothing changes |
| WorkerDelivery.PostDelivers | src/api/turbojs-libc.c:4226-4289 | from rest to rest exactly the posted message, with its sender, is appended, the pipe becomes readable, and each buffer of the message has one more reference |
| WorkerDelivery.MessageArrives | src/api/turbojs-libc.c:4226-4289 | what one thread posts into an empty pipe is what the thread at the other end takes |
| WorkerDelivery.LeadsReachable | src/api/turbojs-libc.c:2675-2730 | what a thread does alone is one of the interleavings |
| WorkerLifecycle.NewWorkerCreates | src/api/turbojs-libc.c:4150-4210 | two fresh pipes with two holders each, an object and a thread that use them crosswise |
| WorkerLifecycle.NewParentCreates | src/api/turbojs-libc.c:4510-4520 | an object on the thread's own pipes, each with one more holder |
| WorkerLifecycle.PortRoundTrip | src/api/turbojs-libc.c:4296-4329 | setting onmessage makes the object listen with one more reference to its pipe; clearing it restores the state |
| WorkerLifecycle.DrainsAll | src/api/turbojs-libc.c:4017-4028 | a pipe being destroyed drops all its messages in order and is freed once |
| WorkerLifecycle.ReleaseFinishes | src/api/turbojs-libc.c:4009-4029 | a thread that releases pipes comes to rest; each pipe has lost exactly the listed references and is destroyed if those were its last |
| WorkerLifecycle.FinalizeReleases | src/api/turbojs-libc.c:4041-4051 | a finalized object gives up its two references, and a third one if its port was open |
| WorkerLifecycle.StopReleases | src/api/turbojs-libc.c:4678-4710 | a thread that ends gives up the references to its two pipes |
| WorkerLifecycle.DropHandleFrees | src/api/turbojs-libc.c:3955-3965 | dropping a handle takes one reference of its buffer away and frees the buffer with the last |
| WorkerLifecycle.NewSabRoundTrip | src/api/turbojs-libc.c:3945-3965 | a new buffer has its creator's handle only; dropping that frees it once |
| WorkerLifecycle.DupHandleRoundTrip | src/api/turbojs-libc.c:3967-3972 | a duplicated handle that is dropped again leaves no trace |
| Timers.Thread.SetTimeout | src/api/turbojs-libc.c:2451-2479 | appends a timer with the next id, a delay of at least 1 that starts now, and the repeats flag it was given; the counters advance |
| Timers.Thread.ClearTimeout | src/api/turbojs-libc.c:2481-2509 | unlinks the first timer whose id is the narrowed argument, if that is positive |
| Timers.Thread.SleepAsync | src/api/turbojs-libc.c:2512-2541 | appends a one-shot without an id that expires after the given delay |
| Timers.Thread.RunTimers | src/api/turbojs-libc.c:2559-2594 | the first expired timer, and no other, is taken off or re-armed before its callback; otherwise nothing changes and the wait is the fold over all delays |
| TimerTheorems.TakenIsNotDue | src/api/turbojs-libc.c:2580-2588 | when a callback starts its own timer is no longer expired, and no other became so |
| TimerTheorems.FiringProgress | src/api/turbojs-libc.c:2559-2594 | each step lowers the number of expired timers, but for sleeps the callback starts already expired |
| TimerTheorems.FiresAtMostOnce | src/api/turbojs-libc.c:2559-2594 | in any run at one instant no timer fires twice |
| TimerTheorems.Settles | src/api/turbojs-libc.c:2559-2594 | without such sleeps no timer is expired after as many steps as were expired at first |
| TimerTheorems.EarlySleepNeverSettles | src/api/turbojs-libc.c:2512-2541 | with a zero sleep in each callback one timer stays expired for ever |
| TimerTheorems.ReachableValid | src/api/turbojs-libc.c:2451-2594 | in every run list nodes are distinct and intervals have a positive delay |
| TimerTheorems.WaitIsExact | src/api/turbojs-libc.c:2572-2579 | with no timer expired, the wait is the smallest remaining delay if and only if no longer delay narrows to less |
| TimerTheorems.WaitFits | src/api/turbojs-libc.c:2572-2579 | so it is, and is positive, when every delay fits in an int |
| TimerTheorems.LongTimerLost | src/api/turbojs-libc.c:2572-2579 | a timer 2^31 ms ahead gives a negative wait |
| TimerTheorems.ClearIsExact | src/api/turbojs-libc.c:2481-2509 | clearTimeout removes the timer with the given id and nothing else, for every list, if and only if the id survives the narrowing |
| TimerTheorems.SleepsSurvive | src/api/turbojs-libc.c:2481-2492 | clearTimeout never removes a sleep |
| TimerTheorems.IdsStayFresh | src/api/turbojs-libc.c:2470-2472 | an operation keeps ids distinct until they start again from 1 |
| TimerTheorems.IdsStayFreshFired | src/api/turbojs-libc.c:2559-2594 | so does a firing with all its callback does |
| TimerTheorems.ReachableFreshIds | src/api/turbojs-libc.c:2451-2594 | in every run that starts fewer than 2^53 - 1 timers no two timers share an id |
| TimerLife.StartedTimer | src/api/turbojs-libc.c:2451-2479 | the timer that setTimeout or setInterval adds is expired from one delay, at least 1, after the call, and repeats only if asked |
| TimerLife.SleepingTimer | src/api/turbojs-libc.c:2512-2541 | the timer that a sleep adds is a one-shot, expired from the given delay after the call |
| TimerLife.OneShotLife | src/api/turbojs-libc.c:2559-2594 | over any run that does not clear it, a one-shot is listed until it fires, fires at most once, exactly if it is no longer listed, and never early |
| TimerLife.IntervalLife | src/api/turbojs-libc.c:2580-2588 | over any run that does not clear it, an interval stays listed, due one delay after its last firing; its firings lie at least one delay apart and never early |
| TimerLife.ExpiredTimersFire | src/api/turbojs-libc.c:2559-2594 | unless callbacks start sleeps that are already over, every expired timer fires, once, within as many steps as timers were expired |
| Handlers.Lists.FindHandler | src/api/turbojs-libc.c:2266-2277 | the first entry of a descriptor, or none |
| Handlers.Lists.SetHandler | src/api/turbojs-libc.c:2289-2329 | the list is a finite map with one entry per descriptor and none without a function; the call changes one side of one descriptor |
| Handlers.ChangedUpdates | src/api/turbojs-libc.c:2289-2329 | the changed list, read as a map, has the wanted function at that side of that descriptor and is otherwise the same |
| Handlers.Lists.SetOnMessage | src/api/turbojs-libc.c:4296-4329 | the ports are a finite map from worker objects to functions; the call changes one worker's |
| Handlers.ChangedPortsUpdates | src/api/turbojs-libc.c:4296-4329 | the changed ports, read as a map, have the wanted function for that worker and are otherwise the same |
| EventLoop.Loop.BuildSet | src/api/turbojs-libc.c:2906-2924 | the poll set lists every handler and port with a function |
| EventLoop.HandlersArePolled | src/api/turbojs-libc.c:2870-2874 | each descriptor is polled for exactly the sides that have a function |
| EventLoop.PortsArePolled | src/api/turbojs-libc.c:2877-2882 | each port's waker is polled |
| EventLoop.Loop.Dispatch | src/api/turbojs-libc.c:2935-2965 | the first element, among those looked at, with a handler to serve gets it called, and no other; the status is Stop only for a descriptor handler that threw |
| EventLoop.Loop.Tick | src/api/turbojs-libc.c:2860-2864 | fires a timer if and only if one is expired, with all its callback does, and stops if and only if it threw; otherwise the wait is the fold over the delays |
| EventLoop.Loop.WaitAndDispatch | src/api/turbojs-libc.c:2865-2934 | the status, the state and the wait of the rest of a poll: nothing to wait for, a sleep with no descriptors, or a poll on all of them followed by at most one call |
| EventLoop.Loop.PollOnce | src/api/turbojs-libc.c:2832-2970 | the new state is that of the poll, and the status is Stop exactly when the loop is to end; with nothing expired and delays that fit the thread waits on everything listed for the smallest remaining delay |
| EventLoop.EndsMeaning | src/api/turbojs-libc.c:2832-2970 | the loop ends if and only if a handler other than a message handler threw, poll failed, or nothing was called or polled and the wait is negative |
| EventLoop.EndsWhenNothingIsLeft | src/api/turbojs-libc.c:2860-2868 | with nothing expired, delays that fit and no failure it ends exactly when there is no timer, handler or port |
| EventLoop.LongTimerEndsLoop | src/api/turbojs-libc.c:2860-2868 | a timer 2^31 ms ahead ends the loop while it is still waiting |
| EventLoop.Loop.DrainJobs | src/api/turbojs-libc.c:4838-4846 | the jobs run are those that wait, in order, up to one that throws; the answer is true exactly when the queue was emptied |
| EventLoop.JobsRunMeaning | src/api/turbojs-libc.c:4838-4846 | every job run was waiting and none before it threw; the drain goes on while it can |
| EventLoop.Loop.Round | src/api/turbojs-libc.c:4830-4855 | one drain, then a poll if the queue was emptied and nothing threw; it goes on exactly if the poll does |
| EventLoop.Loop.Run | src/api/turbojs-libc.c:4830-4855 | makes the rounds up to the first that does not go on, with one drain each, and its log is accepted by the automaton: jobs while draining, then a poll, then at most one call |
| EventLoop.RunDrains | src/api/turbojs-libc.c:4830-4855 | a run that makes n rounds leaves n drains in its log |
| EventLoop.RunAllowed | src/api/turbojs-libc.c:4830-4855 | the log of every run is accepted by the automaton |
| EventLoop.PollsWithEmptyQueue | src/api/turbojs-libc.c:4848-4852 | in an accepted log the jobs added and run balance before each poll |
| EventLoop.OneCallBetweenDrains | src/api/turbojs-libc.c:4830-4855 | in an accepted log a drain lies between any two handler calls |
| SortSteps.InsertionSort | src/internal/cutils.h:1533-1537 | the segment is sorted, a permutation, and nothing else changes |
| SortSteps.Sift | src/internal/cutils.h:1392-1398 | the heap order is extended by one parent |
| SortSteps.RootIsLargest | src/internal/cutils.h:1400-1410 | the root of a heap is a largest element |
| SortSteps.HeapSort | src/internal/cutils.h:1380-1412 | the segment is sorted, a permutation, and nothing else changes |
| Rqsort.Median | src/internal/cutils.h:1414-1419 | one of the three elements, with two not above and two not below it |
| Rqsort.Classify | src/internal/cutils.h:1457-1483 | the segment is divided into equal, smaller, larger and equal elements |
| Rqsort.Partition | src/internal/cutils.h:1452-1509 | the segment is divided into smaller, equal and larger elements, and nothing else changes |
| Rqsort.SegmentSplit | src/internal/cutils.h:1516-1531 | replacing a segment by its two outer parts keeps every other boundary of the array a cut |
| Rqsort.SplitSegment | src/internal/cutils.h:1446-1531 | the larger part goes on the stack, which never needs more than its fifty entries; the smaller part is shorter |
| Rqsort.Process | src/internal/cutils.h:1440-1537 | the segment is sorted or its larger parts are on the stack, no entry deeper than fifty, and less is left to do |
| Rqsort.CountingRanks | src/internal/cutils.h:1243-1243 | for a comparator consistent on the elements, counting smaller ones gives ranks that agree with it |
| Rqsort.Sort | src/internal/cutils.h:1422-1539 | with any comparator the sort ends and permutes the array; with one consistent on its elements the array is sorted |
| TypedSort.TieBreakIsStrict | src/builtins/array_buffer_builtin.c:1243-1292 | breaking ties by index makes the comparison a strict total order |
| TypedSort.PickPermutes | src/builtins/array_buffer_builtin.c:1399-1430 | writing back by any permutation of the indices permutes the elements |
| TypedSort.SortedIndicesAreStable | src/builtins/array_buffer_builtin.c:1243-1292 | a sorted index array keeps equal elements in their order |
| TypedSort.OneStableOrder | src/builtins/array_buffer_builtin.c:1371-1384 | there is only one stable order |
| TypedSort.SortedIndicesGiveStableSort | src/builtins/array_buffer_builtin.c:1371-1434 | the elements picked by a sorted index array are the stable insertion sort of the input |
| TypedSort.Scatter | src/builtins/array_buffer_builtin.c:1390-1430 | writes the elements back in the order of the indices, passing over indices beyond the surviving length |
| TypedSort.SortWith | src/builtins/array_buffer_builtin.c:1371-1434 | sort permutes the array whatever the comparator answers, and with one consistent on its elements gives its stable sort |
| Binary64.ScaledIsMonotone | src/builtins/array_buffer_builtin.c:1126-1135 | the numeric order of binary64 magnitudes is the order of their bit patterns |
| Binary64.CompareIsByRank | src/builtins/array_buffer_builtin.c:1126-1135 | the comparison is by an integer rank: a total preorder with every NaN last and -0 just before +0 |
| Binary64.CompareIsByPattern | src/builtins/array_buffer_builtin.c:1126-1135 | in terms of the bit patterns alone: NaNs last, negative before positive, larger magnitude first among negatives and last among positives |
| Binary64.NumericOne | src/builtins/array_buffer_builtin.c:1126-1135 | the patterns of 1.0 and -1.0 denote one and minus one, scaled by 2^1074 |
| Binary64.NumericExamples | src/builtins/array_buffer_builtin.c:1126-1135 | so do those of one half and two, and the smallest subnormals of both signs |
| Binary64.RankIsInjective | src/builtins/array_buffer_builtin.c:1126-1135 | two patterns of one rank are equal or both NaN |
| Binary64.SortDoubles | src/builtins/array_buffer_builtin.c:1435-1436 | a Float64Array becomes a permutation of itself in which every earlier pattern is in order with every later one |
| Binary64.DefaultSortUnique | src/builtins/array_buffer_builtin.c:1435-1436 | any two sorted permutations agree but for the payload of NaNs |
| TypedArrays.Clamp | src/vm/numeric_ops.c:101-116 | relative positions are clamped as section 23.2.3 of ECMA-262 asks, also after saturation to 32 bits |
| TypedArrays.ReferenceCopy | src/builtins/array_buffer_builtin.c:373-381 | the direction-aware byte loop of section 23.2.3.6 of ECMA-262 equals a block move restricted to the view |
| TypedArrays.CopyWithin | src/builtins/array_buffer_builtin.c:342-383 | copyWithin leaves the bytes that loop leaves, and no byte beyond the current view changes |
| TypedArrays.CopyWithinByBytes | src/builtins/array_buffer_builtin.c:342-383 | the loop itself meets the same specification |
| TypedArrays.CopiedWithinAt | src/builtins/array_buffer_builtin.c:342-383 | element by element: position i receives the element as far behind start as i is behind target, if both lie within the old length, the source before end, and both in the surviving view; else it is unchanged |
| TypedArrays.Fill | src/builtins/array_buffer_builtin.c:435-477 | exactly the elements from start to end within the surviving view are set |
| TypedArrays.Slice | src/builtins/array_buffer_builtin.c:1002-1068 | block move and element loop give the same contents: the surviving part of the slice |
| TypedArrays.JoinElements | src/builtins/array_buffer_builtin.c:840-917 | the join of a sequence of the first length whose entries beyond the new length are empty |
| TypedArrays.JoinLength | src/builtins/array_buffer_builtin.c:897-906 | one separator less than the first length, however the buffer was resized |
| TypedArrays.JoinAt | src/builtins/array_buffer_builtin.c:840-917 | every entry stands at its offset in the result, followed by the separator but for the last |
| TypedSearch.EqualsByBits | src/builtins/array_buffer_builtin.c:660-706 | an element equals the value if and only if the value is of its type and range and has its bits |
| TypedSearch.ElementRanges | src/builtins/array_buffer_builtin.c:660-706 | the range of each of the nine element types |
| TypedSearch.DecodeUnique | src/builtins/array_buffer_builtin.c:660-706 | an element is the one number of its type's range that is congruent to its cell |
| TypedSearch.LastStartMeaning | src/builtins/array_buffer_builtin.c:565-574 | a search from the end starts at the last position not past fromIndex, which counts back from the length when negative |
| TypedSearch.Find | src/builtins/array_buffer_builtin.c:545-838 | in a view that has not shrunk, the first or last position in range with an equal element, or none; a negative value is never found from the end of an Int8Array |
| TypedSearch.MissIsWrong | src/builtins/array_buffer_builtin.c:661-687 | that answer is wrong if and only if the value is there |
| TypedSearch.MissExample | src/builtins/array_buffer_builtin.c:679-686 | for instance the last -1 of an Int8Array that holds one |
| IteratorHelpers.Create | src/builtins/array_builtin.c:429-520 | refused exactly for a limit that is not a number or negative after conversion; otherwise the helper starts at index 0 with the outcomes of its kind over the source pending |
| IteratorHelpers.CreatedIsList | src/builtins/array_builtin.c:429-520 | a helper just created has exactly the list of its operation pending |
| IteratorHelpers.CreateAndDrain | src/builtins/array_builtin.c:738-772 | creating a helper over a list and draining it gives the list function: suffix, prefix, map with indices from 0, selection, concatenation |
| IteratorHelpers.FailureComesNext | src/builtins/array_builtin.c:892-1143 | when the first step of the source or the callback on it fails, the next outcome is the failure |
| IteratorHelpers.Helper.NextDrop | src/builtins/array_builtin.c:914-948 | delivers the next outcome after the items to be dropped |
| IteratorHelpers.Helper.NextTake | src/builtins/array_builtin.c:1102-1129 | delivers the next outcome until the limit, then closes the source |
| IteratorHelpers.Helper.NextMap | src/builtins/array_builtin.c:1072-1101 | delivers the callback's result on the next item and index |
| IteratorHelpers.Helper.NextFilter | src/builtins/array_builtin.c:949-987 | delivers the next selected item; the retry loop ends |
| IteratorHelpers.Helper.NextFlatMap | src/builtins/array_builtin.c:988-1071 | delivers the next item of the inner iterators; the retry loop ends |
| IteratorHelpers.Helper.Next | src/builtins/array_builtin.c:892-1143 | a call from inside a callback is refused without effect; otherwise the next pending outcome is delivered, executing is cleared, finished stays finished, and after a throw the next call is finished exactly under the stated condition |
| IteratorHelpers.Helper.ToArray | src/builtins/array_builtin.c:738-772 | the values of all pending outcomes, or nothing if one of them threw |
| IteratorHelpers.DropIsSuffix | src/builtins/array_builtin.c:914-948 | drop(n) is the suffix after n items |
| IteratorHelpers.TakeIsPrefix | src/builtins/array_builtin.c:1102-1129 | take(n) is the prefix of n items; the source is closed only if it has that many |
| IteratorHelpers.MapIsPointwise | src/builtins/array_builtin.c:1072-1101 | map applies the callback to each item with indices 0, 1, 2 and so on |
| IteratorHelpers.FilterIsSelection | src/builtins/array_builtin.c:949-987 | filter yields the items at the selected indices, once and in order |
| IteratorHelpers.FlatMapIsFlatten | src/builtins/array_builtin.c:988-1071 | flatMap yields the concatenation of the results |
| IteratorHelpers.NothingLeftToDeliver | src/builtins/array_builtin.c:1134-1142 | for every kind: nothing is to come if and only if the source holds nothing to deliver, or take is at its limit and closing does not throw |
| IteratorHelpers.ThrowThenNext | src/builtins/array_builtin.c:1134-1142 | a map that throws and then yields, or is finished when closing ends its source |
| IteratorHelpers.LimitIsExact | src/builtins/array_builtin.c:443-476 | for every integer n, take(n) and drop(n) give what is asked for every source, and are refused when they should be, if and only if n survives the conversion to int64_t |
| IteratorHelpers.LimitExamples | src/builtins/array_builtin.c:443-476 | 2^63 is refused, 2^64 and -2^64 count as zero |
| IteratorHelpers.InfinityIsExact | src/builtins/array_builtin.c:460-465 | an infinite limit is right if and only if the list has at most 2^53 - 1 items |
| IteratorConcat.Create | src/builtins/array_builtin.c:316-357 | with an unusable argument everything acquired is released once; otherwise the sources are pending in order |
| IteratorConcat.Concat.Next | src/builtins/array_builtin.c:203-276 | refused while running; otherwise the next outcome of the concatenated sources, with no reference lost or released twice |
| IteratorConcat.Concat.Return | src/builtins/array_builtin.c:278-308 | no effect if the lookup throws; otherwise every reference has been released exactly once and nothing is pending |
| IteratorConcat.Concat.Finalize | src/builtins/array_builtin.c:177-188 | every reference ever acquired has been released exactly once |
| IteratorConcat.ConcatIsFlatten | src/builtins/array_builtin.c:203-276 | without exceptions the outcomes are the concatenation of the lists |
| NanBoxing.UnboxBox | include/turbojs/turbojs.h:174-236 | boxing then unboxing is the identity but for NaNs, which become one |
| NanBoxing.DecodeEncode | include/turbojs/turbojs.h:174-236 | encoding then decoding gives every value back |
| NanBoxing.EncodeIsInjective | include/turbojs/turbojs.h:174-236 | no two values share a word |
| NanBoxing.TestsAreExact | include/turbojs/turbojs.h:102-123 | reference counts belong to exactly the tags -9 to -1, and the NaN test holds of exactly the NaNs |
| NanBoxing.EncodeIsOnto | include/turbojs/turbojs.h:174-236 | a word is the encoding of what it decodes to, unless it is a NaN that is not canonical |
| NanBoxing.Words | include/turbojs/turbojs.h:174-236 | the words of some tagged values, 1.0, negative zero and NaN |
| ParallelMoves.KnottedIffCyclic | src/jit/optimizing/parallel_moves.c:7-7 | a set of moves each of whose destinations is read in the set exists if and only if there is a cycle |
| ParallelMoves.EmitFree | src/jit/optimizing/parallel_moves.c:7-7 | emitting moves whose destination no pending move reads keeps what was delivered right; without progress every pending destination is read |
| ParallelMoves.StuckReadsApart | src/jit/optimizing/parallel_moves.c:7-7 | then no two pending moves read one place, so the pending moves are cycles |
| ParallelMoves.PendingOnCycle | src/jit/optimizing/parallel_moves.c:7-7 | every pending move then lies on a cycle |
| ParallelMoves.BreakCycle | src/jit/optimizing/parallel_moves.c:7-7 | breaking a cycle ends, fits its budget of moves and delivers a wrong value; it fails only for a cycle whose own class has no usable scratch |
| ParallelMoves.Resolve | src/jit/optimizing/parallel_moves.c:6-8 | the sequence does what the parallel moves mean if and only if they contain no cycle; it has at most 2n moves, each one of the moves or a save into or restore from the scratch of the saved value's class; it fails only for a cycle with a move whose own class has no usable scratch, exactly then if moves keep their class, and otherwise every cycle could be broken |
| ParallelMoves.SwapIsWrong | src/jit/optimizing/parallel_moves.c:7-7 | exchanging two registers loses one value |
| CNames.GetCName | apps/turbojsc/main.c:86-116 | the prefix and the sanitized stem of the file name, cut to the buffer; a C identifier if the prefix is one |
| CNames.AlphanumericMeaning | apps/turbojsc/main.c:105-112 | the characters kept are the 26 capitals, the 26 letters and the ten digits |
| CNames.CandidateShape | apps/turbojsc/main.c:176-196 | a candidate is the base, an underscore and the decimal digits of its number, and a C identifier if the base is one |
| CNames.NameList.Add | apps/turbojsc/main.c:42-61 | the name is appended, also when the array has to grow |
| CNames.NameList.Contains | apps/turbojsc/main.c:75-84 | found if and only if it is in the list |
| CNames.TakenCandidates | apps/turbojsc/main.c:176-196 | k taken candidates need k names in the list |
| CNames.NameList.FindUnique | apps/turbojsc/main.c:176-196 | ends within count + 1 probes with the first free candidate, not truncated, and a C identifier if the given name is one |
| CNames.NameList.LoadModule | apps/turbojsc/main.c:234-238 | the added name is new: the plain one if free, else the first free candidate; a C identifier if the prefix is one |
| CNames.NameAll | apps/turbojsc/main.c:574-586 | over any run of loads and compilations: loaded modules' names are pairwise distinct, and all names are if and only if no compiled file's name was in use |
| CNames.LoadedDistinct | apps/turbojsc/main.c:234-238 | a loaded module's name differs from every earlier name |
| CNames.DistinctIffFreshCompiles | apps/turbojsc/main.c:279-284 | repetitions come from compiled files alone |
| CNames.NameList.CompileFile | apps/turbojsc/main.c:279-284 | the given or derived name is added as it is; a list without repetitions stays so if and only if the name is new |
| CNames.NameTwice | apps/turbojsc/main.c:247-286 | a file that imports a module of the same stem repeats its name |
| CNames.SameStem | apps/turbojsc/main.c:93-101 | for instance a.js and lib/a.js have one stem |
| CNames.IdentifiersClash | apps/turbojsc/main.c:158-163 | two names declare a common identifier if and only if one is the other with _size appended |
| CNames.DeclareTwice | apps/turbojsc/main.c:158-163 | loading a module and one whose stem has _size appended declares one identifier twice under distinct names |
| CNames.SizeStem | apps/turbojsc/main.c:93-101 | for instance a.js and a_size.js |
| Conformance.Shard | scripts/test262.py:237-237 | the files at the positions of one shard |
| Conformance.ShardAt | scripts/test262.py:237-237 | a shard takes the file at its index and then every count-th one, up to the end |
| Conformance.ShardsPartition | scripts/test262.py:237-237 | all shards together hold each file as often as the list |
| Conformance.KeyIsInjective | scripts/test262.py:73-74 | the key determines test and variant |
| Conformance.Selected | scripts/test262.py:48-58 | which variants run for the flags module, raw, onlyStrict, noStrict and none: module and raw alone, strict and sloppy each exactly when the flags allow it, sloppy first; one with --single-variant |
| Conformance.PlannedAreExpected | scripts/test262.py:241-259 | jobs and skips together are the executions asked for |
| Conformance.PlannedConcat | scripts/test262.py:241-259 | files are planned one after the other in order |
| Conformance.Remaining | scripts/test262.py:273-278 | exactly the jobs without a result, in order |
| Conformance.PendingMembers | scripts/test262.py:273-278 | pending are exactly the jobs without a result |
| Conformance.PendingConcat | scripts/test262.py:273-278 | in their order |
| Conformance.RunOnce | scripts/test262.py:261-308 | from a sound stored report a run that dies anywhere, also just before the final write, leaves a sound one, and a complete one if it finishes; each result carries the status its execution had; a run that dies leaves the checkpoint of the last multiple of --checkpoint-every, or the old report if there was none |
| Conformance.CompleteMeansExactlyOnce | scripts/test262.py:292-308 | a complete report has one result per execution asked for and no other |
| Conformance.Session | scripts/test262.py:261-308 | after any number of runs that die anywhere, once the last one finishes there is exactly one result per execution and the counts agree with the results |

## Left out

- The rest of the JIT (SSA construction and passes, register allocation, on-stack replacement, code cache), the parser, the garbage collector and the bytecode interpreter.
- The Windows branches of the waker and of poll.
- Fairness: the dispatch after poll looks only at as many elements as poll reported ready, so a ready descriptor may wait.
- Worker pipes and buffers: overflow of the 32-bit reference counts; failing reads and writes of the waker; reading a message takes one reference per buffer and may stop part-way.
- Worker operations under interleaving: what an operation achieves as a whole is stated for a thread that runs alone from an unlocked pipe; under any interleaving the invariants hold.
- Rejected promises that end the program before a poll, and the pending-signal mask, which is a parameter.
- Overflow of the 64-bit expiry time of a timer.
- Rqsort.Sort: comparators whose answers change from call to call; the exchange routines for the different element sizes are one exchange.
- TypedSort.SortWith: a comparator that throws, or that detaches or resizes the array; Scatter alone covers a shorter surviving length.
- TypedSearch.Find: the float element types; after a shrink it states what the code answers, not what ECMA-262 asks for.
- TypedArrays.Fill: the conversion of the fill value to the element type.
- TypedArrays.JoinElements: elements whose own conversion to a string resizes the buffer.
- reverse, with, set, subarray and the callback methods of typed arrays, which would add only easy members.
- IteratorHelpers.Helper.Next: the return() mode of the same function, a source whose return() behaves differently from call to call, the exceptions of closing an inner iterator, and the counts of rejected filter items.
- IteratorConcat.Concat.Return: user code run by the lookup of return calling the same object again.
- ParallelMoves.Resolve: moves with a common destination or with a scratch location as operand, which callers do not pass, and failing allocations.
- CNames.NameList.FindUnique: more than 2^31 - 2 names, where the suffix would overflow an int.
- CNames.NameAll: a run whose loading fails part-way, which ends the program.
- Conformance.Session: a stored report of a run with other arguments, and the report's other fields.
