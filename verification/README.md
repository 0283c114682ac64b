# I/O splitter: a model of its concurrency core

The repository is an I/O splitter: a coroutine runtime (libtask), a range lock on a red-black interval tree, an RPC
layer over a byte stream, bounded buffer pools, a worker pool, and a multipath plugin that retries commands on other
paths. This project models those parts in Dafny and proves what they promise.

| file | what it models |
|---|---|
| `RbTree`, `RbSearch`, `RbBalance`, `RbInsert`, `RbDeleteFixup`, `RbDelete` | the red-black interval tree of the range lock, in place on the heap, with parent pointers and NULL leaves |
| `RangeLock` | the lock protocol on top: reference counts, sleeping on a held range, waking |
| `Channel` | CSP channels with a ring buffer, and alt over several of them |
| `Locks` | QLock, RWLock and Rendez |
| `TaskList`, `Scheduler` | the task lists, the run queue, the cache of finished tasks and the table of all tasks |
| `NextPrime` | next_prime, with Euclid's theorem for its termination |
| `Dll`, `Hash` | circular lists, the FIFO queue and the hash table, in place on the heap |
| `Framing`, `RpcLine`, `RpcCalls`, `RpcChan` | RPC messages as bytes; one direction of a connection with many senders; requests and responses over both; the client's end in place, on the hash table |
| `KernelRpc` | who owns a request message in the kernel variant |
| `Bufpool`, `ReservePool` | the buffer pools of the splitter and of the kernel module |
| `ThreadPool` | the kernel worker pool |
| `Plugin`, `PluginRuns` | the retry machine of the multipath plugin: its steps and what each keeps; what its runs do |
| `Common` | what several modules use |

Where the source changes objects in place, the model does: nodes, channels, locks, pools, tables and wires are classes.
Scheduling is cooperative in libtask, so a method there is the code a task runs from one `taskswitch` to the next, and
the invariant (`Valid`) that every method keeps holds in every run in which the methods are called in any order their
preconditions allow. Locks, the RPC connection, the kernel pools, the worker pool and the plugin are in addition (or, for
the connection and the plugin, only) state machines whose steps come in any order: `Run` is any sequence of steps
and the theorems speak of all runs.

The tree is proved by local conditions. A ghost numbering gives every node its place in the in-order list and the stretch
of the list its subtree holds; black counts are checked node against parent. A rotation then touches a few nodes only, and
insertion and deletion shift the numbers of the others evenly. `RbSearch.NodesAreInOrder` shows that the ghost list is the
in-order walk of the pointers.

## What the code does not do

Six promises do not hold of the code as it stands. The model keeps the code and states exactly when they hold.

- A QLock waiter resumes as the owner (the abort is not reached) exactly if nobody released the lock between the hand-off
  and the waiter's turn to run: `Locks.QRunIsFifo`. Two releases in a row break it: `Locks.QImpatientRunAborts`.
- A getter waiting in the kernel pool looks at the room left to allocate and not at the free list. If `nbufs` (plus
  `reserve`, for ordinary getters) leaves no room below `nmax`, a getter that waits once waits for ever
  (`ReservePool.WithoutRoomWaitersStay`), also beside a free buffer (`ReservePool.WithoutRoomSomebodyOverlooks`); if it
  does, no buffer is ever overlooked (`ReservePool.WithRoomNobodyOverlooks`).
- Task management drops the lock of the device and then reads the slot of its path again. It holds a reference, which
  keeps the path from being freed but not in its slot: what it reads is its path exactly if the slot was not unclaimed in
  between (`PluginRuns.ManagementReadsItsPath`), and a run of six steps leaves it with an empty slot
  (`PluginRuns.ManagementCanStray`).
- `schedule_work` tests the state of the worker pool before it takes the lock, so work can be inserted after the
  shutdown. When all workers have exited, what is left is exactly the work inserted after the last exit
  (`ThreadPool.OnlyLateWorkIsLeft`); the list is empty for good exactly if it is empty and no caller is between test and
  insertion (`ThreadPool.EmptyForGood`); work is stranded in the run of `ThreadPool.ShutdownStrandsWork`.
- The comment on `next_prime` says "larger than"; the code returns the number itself if it is prime.
- A read or write of no bytes is reported as a closed connection (`Framing.Wire.NetRead`, `Framing.Wire.NetWrite`).

## Model

| member | source | states |
|---|---|---|
| RbTree.RotateLeft | iosplitter/common/range_lock.c:96-123 | a left rotation keeps a binary tree with the same in-order list and parent links, and changes exactly the fields listed |
| RbTree.RotateRight | iosplitter/common/range_lock.c:125-152 | the mirror image |
| RbSearch.CheckOverlap | iosplitter/common/range_lock.c:28-47 | true exactly if the two closed intervals, with ends in either order, share a point |
| RbSearch.SearchFinds | iosplitter/common/range_lock.c:194-222 | a search returns a stored node that overlaps, and NULL exactly when none does; the assert(0) of the search is not reached |
| RbSearch.SearchIsLogarithmic | iosplitter/common/range_lock.c:17-26 | a search visits at most 2 log2(count + 1) nodes |
| RbSearch.SubtreeBounds | iosplitter/common/range_lock.c:194-209 | a subtree of black count b has at least 2^b - 1 nodes and a search passes at most 2b + 1 of them |
| RbSearch.NodesAreInOrder | iosplitter/common/range_lock.c:194-209 | the list the proofs count in is the in-order walk of the pointers |
| RbSearch.Minimum | iosplitter/common/range_lock.c:174-189 | the first node, in order, of a subtree |
| RbInsert.InsertFixup | iosplitter/common/range_lock.c:224-284 | from a tree whose one fault is a red leaf under a red parent, or a red root, the loop ends in a red-black tree with the same in-order list |
| RbInsert.Insert | iosplitter/common/range_lock.c:286-348 | an interval disjoint from all stored ones is added at its place, with count following; otherwise an overlapping node is returned and nothing changes; no assert fails |
| RbDelete.Transplant | iosplitter/common/range_lock.c:154-172 | exactly which links change when a subtree takes the place of another |
| RbDeleteFixup.DeleteFixup | iosplitter/common/range_lock.c:391-490 | from a tree with one path short of a black node the loop ends in a red-black tree; every sibling it asserts is there |
| RbDelete.TakeOut | iosplitter/common/range_lock.c:492-548 | the node with at most one child leaves the in-order list, and the one short path is where the fixup starts |
| RbDelete.MoveUp | iosplitter/common/range_lock.c:492-548 | the successor takes the place of a node with two children, its own child takes the successor's, and nothing else moves |
| RbDelete.Delete | iosplitter/common/range_lock.c:492-548 | deleting any node of a valid tree leaves a valid tree with exactly the other nodes in the same order, and count one less |
| RangeLock.RangeLock.Attempt | iosplitter/common/range_lock.c:646-688 | one turn of range_lock: the range is granted, with its ends in order, exactly if no held range overlaps it, and otherwise the task sleeps, counted, on one that does; the ranges handed out gain exactly this one and keep their ends |
| RangeLock.RangeLock.WakeAll | iosplitter/libtask/rendez.c:18-45 | every task asleep on the node is woken and no other |
| RangeLock.RangeLock.Leave | iosplitter/common/range_lock.c:668-671 | a woken task gives up its count, and the last one frees the node, once |
| RangeLock.RangeLock.Resume | iosplitter/common/range_lock.c:666-677 | after a wakeup the task gives up its count and asks again for the same range, with the same outcome; the ranges handed out gain exactly the one granted and keep their ends |
| RangeLock.RangeLock.Unlock | iosplitter/common/range_lock.c:690-711 | the range is given back and no other, its node leaves the tree, its sleepers and nobody else wake, and it is freed at once exactly if nobody slept on it; all counts stay right and the other ranges keep their ends |
| RangeLock.RangeLock.HeldRangesAreDisjoint | iosplitter/common/range_lock.c:646-688 | two ranges handed out and not given back never share a point |
| RangeLock.RangeLock.SleepersAreRefused | iosplitter/common/range_lock.c:646-688 | a sleeper is counted on a held, unfreed range that overlaps its own, and would be refused if it asked now |
| Channel.Channel.TakeHead | iosplitter/libtask/channel.c:187-193 | the ring buffer gives its oldest value |
| Channel.Channel.PutTail | iosplitter/libtask/channel.c:194-198 | the ring buffer takes a value behind the others |
| Channel.World.constructor | iosplitter/libtask/channel.c:5-21 | with channels as chancreate leaves them and nobody waiting, the invariant of all the channels holds |
| Channel.World.Chancreate | iosplitter/libtask/channel.c:5-21 | one more channel, empty and with a buffer of its own, and the invariant still holds |
| Channel.World.Altcopy | iosplitter/libtask/channel.c:154-199 | in every case, direct hand-off and receive-then-send on a full buffer included, what is accepted is what is in the sender's memory, what is delivered is the oldest value or that one, and the accepted values are the delivered ones followed by the ring |
| Channel.World.Altdequeue | iosplitter/libtask/channel.c:104-123 | exactly this offer leaves its queue, and it is always found: the abort is not reached |
| Channel.World.Altalldequeue | iosplitter/libtask/channel.c:125-133 | every offer of the task leaves its queue and no other one does |
| Channel.World.Altexec | iosplitter/libtask/channel.c:201-220 | both offers run: what is at the sender's address is accepted, the next value in FIFO order is where the receiver wanted it and no other memory changes, with nothing buffered it is what was at the sender's address before, and the partner wakes with all its offers withdrawn and the index of the one that ran |
| Channel.World.QueueAll | iosplitter/libtask/channel.c:274-277 | every offer joins the queue it belongs to |
| Channel.World.Block | iosplitter/libtask/channel.c:271-279 | a task none of whose offers can run blocks with all of them queued, and no two queued offers could meet |
| Channel.World.Survey | iosplitter/libtask/channel.c:231-251 | where the array ends and how many of its offers can run |
| Channel.World.RunNth | iosplitter/libtask/channel.c:252-268 | any choice among the offers that can run is met, and exactly that one runs, with what Altexec states of values and memory |
| Channel.World.Chanalt | iosplitter/libtask/channel.c:223-279 | one offer that can run does, if there is one, with what Altexec states of values and memory; else the call fails without a change if it may not block, and blocks if it may |
| Channel.World.Resume | iosplitter/libtask/channel.c:281-286 | a blocked alt returns the index of the offer a partner ran |
| Channel.World.NoMissedRendezvous | iosplitter/libtask/channel.c:71-133 | in every reachable state no blocked offer could run with another task or with the buffer |
| Channel.World.AllOffersOrNone | iosplitter/libtask/channel.c:201-286 | all offers of a blocked alt stand in their queues; of a task that is not blocked, none |
| Locks.QRunIsFifo | iosplitter/libtask/qlock.c:6-50 | over every run tasks get the lock in the order they asked, a free lock has nobody waiting, and a woken waiter is the owner exactly if nobody released the lock before it ran |
| Locks.QPatientRunNeverAborts | iosplitter/libtask/qlock.c:18-21 | the abort is not reached in a run in which nobody releases the lock for an owner that has not run yet |
| Locks.QImpatientRunAborts | iosplitter/libtask/qlock.c:37-50 | two releases in a row make the waiter between them abort |
| Locks.QLock.Acquire | iosplitter/libtask/qlock.c:6-17 | the lock is taken if free; else the task queues, or fails without a change |
| Locks.QLock.Continue | iosplitter/libtask/qlock.c:18-22 | the check behind taskswitch fails exactly if the lock was released too early |
| Locks.QLock.Release | iosplitter/libtask/qlock.c:37-50 | the lock goes to the first waiter, or is free |
| Locks.RWRunIsSafe | iosplitter/libtask/qlock.c:52-142 | over every run the tasks reading are those let in that have not left, and readers counts them; while a writer has the lock nobody reads, a free lock has both queues empty, readers wait only for a writer that holds the lock or waits, and each side is let in in the order it asked |
| Locks.NextWUnlockAdmitsAll | iosplitter/libtask/qlock.c:52-142 | over every run, from the time a reader waits to the next wunlock no reader gets in; that wunlock lets all who wait in, exactly them, and no writer |
| Locks.ReaderOvertakenOnce | iosplitter/libtask/qlock.c:52-142 | over every run a waiting reader is overtaken by one writer at most before it is inside, and by none if one holds the lock |
| Locks.RWLock.ReadAcquire | iosplitter/libtask/qlock.c:52-66 | the reader is inside and counted if no writer has the lock or waits for it; else it queues, or fails without a change |
| Locks.RWLock.WriteAcquire | iosplitter/libtask/qlock.c:80-92 | the writer has the lock if it is free and nobody reads; else it queues, or fails without a change |
| Locks.RWLock.WriteRelease | iosplitter/libtask/qlock.c:118-142 | every waiting reader is inside and counted; without any the first waiting writer has the lock; the second abort is not reached |
| Locks.RWLock.ReadRelease | iosplitter/libtask/qlock.c:106-116 | the reader is out, and the last one hands the lock to the first waiting writer |
| Locks.Rendez.Sleep | iosplitter/libtask/rendez.c:9-13 | one step up to the switch: the task is last on the list and the lock is released |
| Locks.Rendez.Relock | iosplitter/libtask/rendez.c:14-15 | behind the switch a task that was made ready has the lock again, or queues for it |
| Locks.Rendez.Wakeup | iosplitter/libtask/rendez.c:18-33 | the first sleeper, or all, wake in order, and the result is how many |
| TaskList.Tasklist.Add | iosplitter/libtask/task.c:509-521 | the list is followed by the task, whatever old links it has |
| TaskList.Tasklist.Del | iosplitter/libtask/task.c:523-534 | the list without the task, in the same order |
| Scheduler.Runtime.Create | iosplitter/libtask/task.c:170-205 | a cached task is used again in its slot, or a new one gets the next slot of the table; it is ready behind all others, taskcount counts it, and every other task stays where it is, its turn included |
| Scheduler.Runtime.YieldBegin | iosplitter/libtask/task.c:230-238 | the caller goes behind every ready task |
| Scheduler.Runtime.YieldEnd | iosplitter/libtask/task.c:239 | taskyield returns exactly the number of tasks that were ready ahead of the caller |
| Scheduler.Runtime.Switch | iosplitter/libtask/task.c:305-311 | the task that has been ready longest runs, after exactly as many switches as were ahead of it |
| Scheduler.Runtime.System | iosplitter/libtask/task.c:207-214 | a system task is no longer counted |
| Scheduler.Runtime.Free | iosplitter/libtask/task.c:271-284 | the task leaves the table, every other task is still at its slot, and taskcount stays right |
| Scheduler.Runtime.Exit | iosplitter/libtask/task.c:314-329 | a finished task is freed or kept as an ordinary one, by stack size and room in the cache |
| Scheduler.Runtime.CacheFree | iosplitter/libtask/task.c:334-350 | exactly the cached tasks are freed |
| Scheduler.Runtime.Idle | iosplitter/libtask/task.c:296-303 | with nothing ready and the cache freed, taskcount is 0 exactly if no ordinary task is left asleep |
| NextPrime.NextPrime | iosplitter/common/prime.c:13-58 | the result is the least prime that is not below num, and the loops end |
| NextPrime.FindDivisor | iosplitter/common/prime.c:29-41 | with the list of all smaller primes the inner loop finds a divisor exactly if the number is composite |
| NextPrime.CutOffIsSafe | iosplitter/common/prime.c:34-35 | the cut-off past the square root never accepts a composite |
| NextPrime.PrimeFrom | iosplitter/common/prime.c:28 | Euclid: there is a prime at or above every number |
| Dll.Add | iosplitter/include/dll.h:42-47 | the ring followed by the new node |
| Dll.RevAdd | iosplitter/include/dll.h:49-54 | the ring with the new node right behind its head |
| Dll.Rem | iosplitter/include/dll.h:35-40 | the ring without the node, and the node a ring of its own |
| Dll.Queue.Enqueue | iosplitter/common/queue.c:36-42 | the queue followed by the entry |
| Dll.Queue.Dequeue | iosplitter/common/queue.c:60-75 | the oldest entry, unlinked, or NULL exactly if the queue is empty |
| Dll.Queue.Following | iosplitter/common/queue.c:50-58 | the iterator yields the entries oldest first and NULL behind the last |
| Hash.Table.Insert | iosplitter/common/hash.c:69-84 | the table as a map gains the entry under its seqid; count follows |
| Hash.Table.Lookup | iosplitter/common/hash.c:86-111 | the entry the map has for the seqid, or NULL exactly if it has none |
| Hash.Table.Remove | iosplitter/common/hash.c:113-124 | the map loses exactly this entry; an entry that is not linked is left alone |
| Hash.Table.Cleanup | iosplitter/common/hash.c:40-67 | every entry is unlinked and called back once, and count ends at 0 |
| Hash.InsertKeepsKeys | iosplitter/rpc/rpc.c:43-46 | every entry stays in the bucket of its seqid |
| Framing.Wire.NetRead | iosplitter/libtask/taskio.c:391-451 | however the bytes arrive, all of the next n bytes or a closed connection |
| Framing.Wire.NetWrite | iosplitter/libtask/taskio.c:391-451 | all bytes are out, or a part of them and the connection is closed; every system call that moves bytes is listed |
| Framing.Wire.Send | iosplitter/rpc/rpc.c:463-473 | a message goes out whole, or a proper part of it does and the call fails; every system call that moves bytes is listed |
| Framing.Wire.Receive | iosplitter/rpc/rpc.c:52-118 | exactly the next message is taken from the stream, or no message |
| Framing.Wire.ReceiveAll | iosplitter/rpc/rpc.c:159-193 | requests and responses are handed on in stream order, and only a closed connection, a message that says so or a bad length stops the loop |
| Framing.ParseReadsBack | iosplitter/rpc/rpc.c:52-108 | a written message is read back and the bytes behind it are left alone |
| Framing.GotWasEncoded | iosplitter/rpc/rpc.c:52-108 | whatever is read is what would have been written |
| Framing.PartIsShort | iosplitter/rpc/rpc.c:52-108 | part of a message is never taken for one |
| Framing.BadIsHopeless | iosplitter/rpc/rpc.c:76-95 | what is refused is not the front of a message that fits, nor behind one |
| Framing.ParseAllReadsBack | iosplitter/rpc/rpc.c:159-193 | a stream of messages, the last perhaps only partly there, is read back message by message |
| RpcLine.FramingHolds | iosplitter/rpc/rpc.c:463-519 | over every run, with any number of senders, short writes and sleeps in mid-message, the other end decodes exactly the messages that are out, in the order their senders asked for the lock |
| RpcLine.SendIsWrites | iosplitter/rpc/rpc.c:463-473 | a send is a run of the line's write steps: whatever its system calls move, the steps are possible, put out the same bytes, and the last one releases the lock |
| RpcLine.LineNextKeepsInv | iosplitter/rpc/rpc.c:463-475 | what every system call and hand-over of the lock keeps |
| RpcLine.LineIsNeverStuck | iosplitter/rpc/rpc.c:463-475 | while anybody is sending the owner of the line can write or wake |
| RpcCalls.ResponsesMatch | iosplitter/rpc/rpc.c:123-153 | over every run no response is an orphan and no assert fails, the hash holds exactly the requests not yet answered, and each caller wakes with the response to its own request, in whatever order they come |
| RpcCalls.NoLostWakeup | iosplitter/rpc/rpc.c:475-478 | the response finds its caller asleep: no wakeup precedes the sleep |
| RpcCalls.CallsReturnOnce | iosplitter/rpc/rpc.c:444-479 | over every run a task is in rpc_request exactly from its call to its return, and returns once |
| RpcCalls.CallsAreNeverStuck | iosplitter/rpc/rpc.c:444-519 | no deadlock: while a task is in rpc_request some step of either end or of a line is possible |
| RpcCalls.MatchedKeepsInv | iosplitter/rpc/rpc.c:123-153 | matching a response keeps every request in exactly one place |
| RpcChan.RpcChan.Begin | iosplitter/rpc/rpc.c:444-462 | the request is in the hash under its seqid, and the state is the one the matching theorem speaks of |
| RpcChan.RpcChan.Sleep | iosplitter/rpc/rpc.c:475-477 | the sender sleeps on its own message |
| RpcChan.RpcChan.Response | iosplitter/rpc/rpc.c:123-153 | lookup, removal, storing and wakeup do to the objects what matching does to the values; an orphan is reported exactly if no request of that seqid waits |
| RpcChan.RpcChan.Finish | iosplitter/rpc/rpc.c:477-479 | the assert holds and the caller gets the response stored for it |
| KernelRpc.SenderOutlivesItsUse | vmware_kernel/mpp/rpc.c:54-80 | over every run a request message is recycled only after its sender has returned, even if the response is in before the sender unlocks |
| KernelRpc.RunKeepsInv | vmware_kernel/mpp/rpc.c:324-373 | a message is with its sender, the other end, a worker or the pool, and is hashed until a worker with the lock takes it out |
| KernelRpc.WhereItIs | vmware_kernel/mpp/rpc.c:54-80 | over every run a message is where the steps on it have brought it, with as many bytes unsent as its writes have left |
| KernelRpc.RequestIsNeverStuck | vmware_kernel/mpp/rpc.c:54-80 | a request that has been begun and not handled can always go on |
| Bufpool.Pool.constructor | iosplitter/common/bufpool.c:17-42 | a pool starts with nbufs free buffers |
| Bufpool.Pool.Get | iosplitter/common/bufpool.c:77-109 | a buffer nobody has, free or new, exactly if fewer than nmax are out; else the caller fails or sleeps; buffers are conserved and no wakeup is lost |
| Bufpool.Pool.Put | iosplitter/common/bufpool.c:131-155 | the buffer is free again, or freed above nbufs, and the getter that has slept longest is made ready; the asserts hold |
| ReservePool.ReserveIsKept | vmware_kernel/mpp/bufpool.c:141-277 | over every run with nbufs + reserve <= nmax ordinary getters hold at most nmax - reserve buffers, and a reserve getter does not block while fewer than reserve are out to its like |
| ReservePool.RefusedOnlyWhenFull | vmware_kernel/mpp/bufpool.c:165-171 | over every run a getter finds nothing exactly if no buffer is free and nmax are out, or nmax - reserve for an ordinary one |
| ReservePool.WithRoomNobodyOverlooks | vmware_kernel/mpp/bufpool.c:187-201 | if nbufs leaves room below nmax, no waiting getter ever overlooks a buffer it could have |
| ReservePool.WithoutRoomSomebodyOverlooks | vmware_kernel/mpp/bufpool.c:187-201 | if it does not, some run ends with a getter waiting beside a buffer for it |
| ReservePool.WithoutRoomWaitersStay | vmware_kernel/mpp/bufpool.c:187-201 | and a getter that waits once waits for ever |
| ReservePool.BufferPool.constructor | vmware_kernel/mpp/bufpool.c:40-84 | a pool starts with nbufs free buffers |
| ReservePool.BufferPool.Acquire | vmware_kernel/mpp/bufpool.c:141-207 | a free buffer, else a new one, exactly if there is one or the getter may allocate; else an error for noblock, or a wait; what is handed out is new to the books of its kind |
| ReservePool.BufferPool.Reawake | vmware_kernel/mpp/bufpool.c:187-201 | a buffer exactly if the condition of the wait loop holds, and the getter waits on otherwise |
| ReservePool.BufferPool.Release | vmware_kernel/mpp/bufpool.c:251-277 | the buffer is free again, or given back to the heap above nbufs; buffers are conserved and the asserts hold |
| ThreadPool.PoolIsSafe | vmware_kernel/mpp/threadpool.c:5-92 | over every run, insertions after the shutdown included, the work handed in is begun once and in that order or still in the list, work_pend is the length of the list, active counts the workers, which exit only in a shutdown, and a worker sleeps beside work or through a shutdown only if a wakeup is on its way |
| ThreadPool.WorkGoesOn | vmware_kernel/mpp/threadpool.c:5-48 | while there is work and a worker, a worker can go on or be woken |
| ThreadPool.OnlyLateWorkIsLeft | vmware_kernel/mpp/threadpool.c:84-85 | when all workers have exited, what is left in the list is exactly the work inserted after the last of them did, when it was empty |
| ThreadPool.EmptyForGood | vmware_kernel/mpp/threadpool.c:188-199 | with all workers gone no run leaves work in the list if and only if it is empty and no caller is between its test of the state and its insertion |
| ThreadPool.ShutdownStrandsWork | vmware_kernel/mpp/threadpool.c:188-199 | a run in which the assert on the list fails |
| ThreadPool.WorkerPool.Test | vmware_kernel/mpp/threadpool.c:190 | the caller is between its test of the state and its insertion |
| ThreadPool.WorkerPool.Schedule | vmware_kernel/mpp/threadpool.c:192-195 | the work joins the list behind the other work, in a shutdown too, and is counted |
| ThreadPool.WorkerPool.BeginShutdown | vmware_kernel/mpp/threadpool.c:56-67 | the state is shutting and a wakeup is owed |
| ThreadPool.WorkerPool.Wake | vmware_kernel/mpp/threadpool.c:67 | every worker that sleeps goes round its loop again |
| ThreadPool.WorkerPool.Done | vmware_kernel/mpp/threadpool.c:38-43 | a worker that is done with its work goes round its loop again |
| ThreadPool.WorkerPool.NextWork | vmware_kernel/mpp/threadpool.c:5-48 | a worker takes the oldest work out of the list and the count; without any it exits in a shutdown and sleeps otherwise |
| Plugin.RetryMachineIsSafe | vmware_kernel/mpp/mp_plugin_example.c:2256-2357 | over every run no assert fails and no command is issued without an active path, a device's block count is the number of its commands in the retry queue, being queued or in the retry world's hand, its command count is the number it has not got back and the retry world's own, and a path's references cover the commands on it, those sent to it directly included, and its other users, so it is freed with none of them left |
| PluginRuns.LeavesSlotOnce | vmware_kernel/mpp/mp_plugin_example.c:3197-3215 | over every run from any state, a claimed path is in its slot exactly if it was and the slot has not been unclaimed since |
| PluginRuns.ManagementReadsItsPath | vmware_kernel/mpp/mp_plugin_example.c:2472-2512 | over every run, task management's second read of the slot gives the path it holds a reference on exactly if the slot was not unclaimed since the first; that path is not freed in either case |
| PluginRuns.ManagementCanStray | vmware_kernel/mpp/mp_plugin_example.c:2491-2494 | a run in which the second read finds the slot empty |
| PluginRuns.EveryCommandOnce | vmware_kernel/mpp/mp_plugin_example.c:732-787 | over every run a command leads a life in order: issued, and as often as it fails it waits, is picked and is issued again, until it completes or is cancelled while it waits; it is handed back once for its end, and at most once |
| Plugin.ReissueKeepsInv | vmware_kernel/mpp/mp_plugin_example.c:2010-2056 | the retry world reissues a command to a path that is there, on a blocked and open device |
| Plugin.AbortKeepsInv | vmware_kernel/mpp/mp_plugin_example.c:2430-2446 | an aborted command leaves the retry queue with its block, and the device was blocked |
| Plugin.DestroyKeepsInv | vmware_kernel/mpp/mp_plugin_example.c:2709-2719 | a path without references has no active command when it is destroyed |
| Plugin.IssueDirectKeepsInv | vmware_kernel/mpp/mp_plugin_example.c:1646-1701 | a command sent to the path itself takes a command count and a reference, which its completion gives back |
| Plugin.CmdStepKeepsInv | vmware_kernel/mpp/mp_plugin_example.c:1035-1133 | issue, completion, failure, queueing and the drop of the path keep every count |
| Plugin.GetFailoverPathIndex | vmware_kernel/mpp/mp_plugin_example.c:1972-2000 | the next path around that is on; else the next there is; else, and only then, the old one |
| Plugin.FailoverIsUnique | vmware_kernel/mpp/mp_plugin_example.c:1972-2000 | what the search promises determines the slot it finds |
| Plugin.FailoverExists | vmware_kernel/mpp/mp_plugin_example.c:1972-2000 | and there always is such a slot |
| Plugin.OtherIsFound | vmware_kernel/mpp/mp_plugin_example.c:1972-2000 | with another path in the device it is another slot, whose path is on if any other is |
| PluginRuns.StepEffect | vmware_kernel/mpp/mp_plugin_example.c:1035-1133 | what every step does to the life of a command, the slot and the counts of a path, the retry queue and world, and which path is active |
| PluginRuns.ReferencesBalance | vmware_kernel/mpp/mp_plugin_example.c:1112-1133 | over every run the command count and the references of a path are what was put on it less what was taken off |
| PluginRuns.ActiveMeansCommands | vmware_kernel/mpp/mp_plugin_example.c:1112-1133 | the command count of a path is exactly the number of commands on it and of those being let go of |
| PluginRuns.DestroyedIsUnused | vmware_kernel/mpp/mp_plugin_example.c:2709-2719 | once a path has been destroyed nothing is on it, holds it or finds it in a slot, whatever comes after |
| PluginRuns.IssueGoesToActive | vmware_kernel/mpp/mp_plugin_example.c:1483-1558 | a new command goes to the active path of its device, which there is |
| PluginRuns.ReissueGoesToActive | vmware_kernel/mpp/mp_plugin_example.c:2010-2056 | a command that is tried again goes to the path that is active then |
| PluginRuns.FailoverMovesActive | vmware_kernel/mpp/mp_plugin_example.c:2066-2086 | a failover makes the path the search found the active one, another than before, and leaves other devices alone |
| PluginRuns.FailoverFindsOn | vmware_kernel/mpp/mp_plugin_example.c:2066-2086 | and that path is on if any other path of the device is |
| PluginRuns.FailoverIsPossible | vmware_kernel/mpp/mp_plugin_example.c:2066-2086 | with more than one path a failover to what the search finds is possible |
| PluginRuns.ActiveStaysInRun | vmware_kernel/mpp/mp_plugin_example.c:2066-2086 | over every run a device keeps its active path unless a failover for one of its commands or the unclaim of that path is in it |
| PluginRuns.RetriedWhereFailedOver | vmware_kernel/mpp/mp_plugin_example.c:2256-2319 | a command whose failover is followed by no other switch is tried again on the path the failover found, and not on the one before |
| PluginRuns.RetryIsChecked | vmware_kernel/mpp/mp_plugin_example.c:2276-2319 | over every run, between the pick of a command and its reissue the retry world looks at the active path, and if it is off a failover follows or there is no other path |
| PluginRuns.RetriedInOrder | vmware_kernel/mpp/mp_plugin_example.c:2256-2319 | over every run commands are picked in the order they failed, cancelled ones aside |
| PluginRuns.WorldIsNeverStuck | vmware_kernel/mpp/mp_plugin_example.c:2256-2357 | in every reachable state the retry world has a next step, unless it waits for commands |
| PluginRuns.CommandIsNeverStuck | vmware_kernel/mpp/mp_plugin_example.c:1035-1133 | until it is back something can happen to a command, or the retry world has it |

## Left out

- Allocation failure: every allocation succeeds, in the tree, the tasks, the lists and the pools.
- Integer widths outside the message header: counts and addresses are unbounded, seqids do not wrap while outstanding.
- NextPrime.NextPrime: the square root is exact, so rounding of the double above 2^53 is not modelled; the list of primes is a sequence, and freeing it is left out.
- Channel.World.Chanalt: freeing channels is left out; the queues are sequences, so the growth of their arrays is not modelled; values are abstract instead of bytes.
- Channel.World.Altexec: rand() is an arbitrary choice, here and in `RunNth`.
- Locks.RWLock.ReadRelease: called by a task that reads; what a release by another would do is left out.
- Locks.QLock.Acquire: waiting lists are sequences; `TaskList` models the linked lists they are made of.
- Scheduler.Runtime.Create: stacks and context switches are left out, and the assert that the cache is empty for other stack sizes is a precondition. The run queue and the cache are sequences, and wait lists of others are only known as "asleep".
- Hash.Table.Remove: takes the place of the entry as a ghost argument.
- Framing.Wire.Receive: buffers of the pools are not tracked here; the header is little-endian, as on the machines the program runs on.
- RpcCalls.ResponsesMatch: on values; `RpcChan` ties the client's objects to them and the server's handlers stay values. No connection failure, so a request that failed and stayed in the hash does not occur, and a channel is not disabled while a response is sent. A message is taken by the receive loop in one step once all of it has come. One end makes requests and the other answers them.
- RpcLine.FramingHolds: a system call may cross from the header into the payload, which allows more than the source does.
- KernelRpc.SenderOutlivesItsUse: no connection failure; the hash is a set of messages, and each use of a message buffer has its own identity.
- Bufpool.Pool.Get: bufpool_deinit and the wakeup of its caller are left out; a method ends where the task sleeps.
- ReservePool.BufferPool.Acquire: timeouts of the wait and bufpool_deinit are left out; a waiter may look again at any time.
- ThreadPool.PoolIsSafe: a wakeup wakes every sleeping worker, as the wait primitive of the kernel does; the pool of work items is left out, and what `_thread_pool_deinit` frees behind its asserts.
- Plugin.RetryMachineIsSafe: on values, not objects. Reservations, path probing, sense data and the choice of failure action are left out. A device is closed only when its commands are back, task management matches only commands of its own device, and a device goes with its last path, without the case that it is in use and the path is put back. What issuing task management to an empty slot does is unknown; the model records it.
- sockio_done, the reader and writer slots of a socket and the rest of the event loop: system calls.
- rb_destroy and the debugging walks over the tree, statistics, printing, timers and module set-up: they would only add easy members.
