# A verified model of a bare-metal MIPS operating system

The system is a small operating system for a MIPS board: a priority-based thread kernel with
semaphores, mailboxes and timers, a first-fit heap, a read-only FAT file system over a block device,
an environment kept in flash, a TFTP client, a wildcard matcher and a software square root. The
project models the parts where state or arithmetic is hard and proves what they keep, compute or
undo. Pure data is modelled by datatypes and functions; code that works in place is modelled by
classes and methods with loops, proved against functions on values.

| file | what it models |
|---|---|
| `KernelState.dfy` | the thread kernel as a transition system: one step per section with interrupts off |
| `KernelInvariant.dfy`, `KernelSteps.dfy`, `KernelTick.dfy`, `KernelRuns.dfy` | the kernel invariant and its proof for every step and run |
| `KernelWaiting.dfy`, `KernelMail.dfy`, `KernelProgress.dfy` | semaphore accounts, mailbox queues and wake-ups, scheduling and timing over runs |
| `KernelEffects.dfy`, `KernelEnds.dfy` | what each event does field by field; how timed waits and threads end, over runs |
| `KernelWitness.dfy` | a run from the initial state that loses a wake-up |
| `RtList.dfy`, `KernelLinks.dfy` | the intrusive rings, and how the kernel's lists lie in them |
| `Kernel.dfy`, `Ffs.dfy`, `Mailbox.dfy` | the kernel working in place: bitmap, linked nodes, message rings |
| `HeapBlocks.dfy`, `HeapWords.dfy`, `Heap.dfy` | the heap: block structure, headers in memory, the allocator |
| `Sqrt.dfy`, `Words.dfy` | the square root on 32-bit words |
| `Devfs.dfy`, `Fat.dfy`, `FatTable.dfy` | block device reads, the FAT reader on top of them, and its table bit by bit |
| `Env.dfy` | the checksummed environment image and its in-memory table |
| `Tftp.dfy`, `TftpWrite.dfy` | TFTP transfers in both directions over an unreliable network |
| `Glob.dfy` | `strposn` and `strpat` |

Main results, each for all inputs or all runs:

* **Kernel.** In every reachable state each thread is in at most one list, the ready group is the
  index of the non-empty levels, the current thread is in no ready list and closed threads are only
  on the dead list; the branches of `rt_schedule` that report a corrupted state are unreachable.
  Semaphores balance, waiters are served in arrival order and a wait ends in exactly three ways.
  Mailboxes are bounded FIFO queues. A wake-up is lost exactly by killing a thread that was woken and
  has not retried while others are parked and none on its way can be spared; a run from the initial
  state shows it happening. Runs include mailbox sends from interrupt handlers. A ready thread with k
  threads ahead runs within k + 1 hand-overs while nothing better is ready or running. While another
  thread is ready the current one keeps the processor for at most the ticks left of its slice, where a
  counter of 0 stands for 2^32 ticks. A sleep of n ticks from tick t lasts exactly through n ticks if and
  only if t + n + 1 < 2^32, or t is the last tick of the counter and n is at least 1; when the deadline is
  the last tick of the counter it never ends. The time limits of takes, sends and receives last by the same
  rule, and end with a time-out. A thread that has exited or was killed is never handed the processor
  again. What each event does to the state is given in full, in terms of its fields. All of this is proved of a transition system, which the
  kernel working in place on its linked nodes is proved to follow.
* **Heap.** Headers tile the heap; the block list is a function of the live allocations alone, so
  any sequence of requests followed by freeing everything restores the initial heap; live blocks are
  disjoint and no operation touches another block's payload; `malloc` and `realloc` return NULL
  exactly when the size is 0 or too large, or when a block is needed and none fits.
* **Square root.** Correctly rounded in all four rounding modes for every finite double.
* **FAT.** Every sequence of seeks and reads returns the file's bytes; the multi-cluster buffer is
  sound because a chain never repeats a cluster. Table entries are the bits of the table, and chains end at
  2^w - 9 and 2^w - 8 for entries of w bits.
* **Environment.** Every sequence of settings within the limits survives a reboot; `set_rom_env` stays
  inside its buffer exactly when the entry fits.
* **TFTP.** A caller that stops at the first `tftpread` that returns -1 has a prefix of the file, and the
  file itself when the transfer ends. A caller must not read on: each failed read skips one block more, so
  that after f of them the bytes at offset x are those of the file at x + 512 * f.
  What a server stores is a prefix of what was written as long as no `tftpwrite` returned -1 before
  `tftpclose`, and all of it when every call succeeds; after a failed write it is a prefix of what was
  written until then exactly when the server does not take that block sent again, by a later write or by
  closing. Both clients make progress: when every block or acknowledgement comes within the time-outs the
  client allows for it, the whole transfer succeeds.
* **Wildcards.** What the greedy matcher accepts always matches. The patterns for which it decides every
  subject form a class that a caller can recognise. For the others the length of the shortest subject that
  is rejected wrongly is given, so with buffers of any size, `strpat`'s included, every subject that fits
  is decided exactly when that one does not fit.

Eight places where the code differs from its documentation or from the obvious expectation are stated
as results, each with its exact condition or a failing run:

* `rt_mb_recv` with `RT_WAITING_FOREVER` times out at the next tick, except at tick 0 and at the last
  tick before the counter wraps (`KernelMail.ReceiveForeverTimesOut`);
* killing a woken thread can leave a parked one waiting for ever (`KernelMail.NoLostWakeUpStep`,
  `KernelWitness.KillLosesWakeUp`);
* the free-space test of `set_rom_env` never rejects, and the seventeenth of the longest entries is
  written past the buffer (`Env.Store.SetRom`, `Env.FillUp`);
* a `tftpread` after one that returned -1 acknowledges a block that never arrived, and the file goes on one
  block too far (`Tftp.SkippedBlock`, `Tftp.ReadOn`); os/filesys/loadelf.c:665 reads on without looking;
* a sleep whose deadline is the last tick of the counter never ends (`KernelProgress.SleepsForEver`);
* `realloc` can return NULL for the size a block was asked for, or a smaller one, because it moves what it
  cannot cut in place (`Heap.Allocator.Realloc`, `Heap.SameSizeFails`);
* `tftpclose` reports success in any case, and after a failed write the server can store a block twice
  (`TftpWrite.CloseAfterFailure`, `TftpWrite.StoredTwice`);
* `strpat` misses matches of patterns outside its class (`Glob.DecidesExactlyHandled`, `Glob.DecidesExactly`).

## Model

| member | source | states |
|---|---|---|
| `RtList.Links.Init` | os/thread.c:42-45 | an initialised node is a ring of its own; no other node's links change |
| `RtList.Links.InsertBefore` | os/thread.c:47-54 | the ring of the list gets the node at its end; no other node's links change |
| `RtList.Links.InsertAfter` | os/thread.c:69-76 | the ring gets the node at its front; no other node's links change |
| `RtList.Links.Remove` | os/thread.c:56-62 | the ring closes without the node, which becomes a ring of its own; a node in no list may be removed again |
| `RtList.Links.IsEmpty` | os/thread.c:64-67 | true exactly when the ring is the head alone |
| `RtList.OtherRing` | os/thread.c:42-76 | lists that share no node with the changed one are intact |
| `KernelLinks.CoupledIn` | os/thread.c:47-76 | linking a node at either end of a ring is adding the thread at that end of the list, and every other list in memory is intact |
| `KernelLinks.CoupledOut` | os/thread.c:56-62 | unlinking a node is taking the thread out of its list, and every other list in memory is intact |
| `KernelLinks.CoupledTimers` | os/thread.c:412-422 | the same for the timer list |
| `Kernel.ThreadKernel.RemoveNode` | os/thread.c:56-62 | memory holds the lists without the thread, whatever list it was in |
| `Kernel.ThreadKernel.LinkNode` | os/thread.c:47-76 | memory holds the lists with the thread at the chosen end |
| `Kernel.ThreadKernel.HandOver` | os/thread.c:508-516 | the hand-over of the transition system, on the linked nodes |
| `Ffs.LoopFfs` | libc/ffs.c:40-49 | the loop finds the position of the lowest set bit plus one |
| `Ffs.TableFfsRight` | os/thread.c:224-238 | the table-driven search finds the same for every 32-bit word, signed or unsigned |
| `Ffs.TableRight` | os/thread.c:109-127 | every table entry is the lowest set bit of its index |
| `Ffs.LowestSetIsLowest` | libc/ffs.c:40-49 | that bit is set and none below it is |
| `Ffs.SignIrrelevant` | os/thread.c:246 | passing the unsigned group to an int parameter does not change the result |
| `Ffs.MaskArithmetic` | os/thread.c:362 | or-ing in and clearing a one-bit mask, as arithmetic on the word |
| `Kernel.GroupFindsBest` | os/thread.c:240-256 | with a correct group the search yields the smallest non-empty level, and the group is zero exactly when no thread is ready |
| `Kernel.ThreadKernel.constructor` | os/thread.c:795-811 | the lists and the group after initialisation satisfy the invariant |
| `Kernel.ThreadKernel.Insert` | os/thread.c:345-367 | the thread is last of its level or, when current, RUNNING; the group stays the index of non-empty levels |
| `Kernel.ThreadKernel.Remove` | os/thread.c:369-381 | the thread is in no list; the group stays the index of non-empty levels |
| `Kernel.ThreadKernel.StartTimer` | os/thread.c:412-422 | the timer is on the timer list with deadline now + time, modulo 2^32 |
| `Kernel.ThreadKernel.StopTimer` | os/thread.c:280-305 | an active timer leaves the timer list; an inactive one is left alone |
| `Kernel.ThreadKernel.Highest` | os/thread.c:240-256 | the head of the smallest non-empty level, which is READY and not the current thread |
| `Kernel.ThreadKernel.Reschedule` | os/thread.c:481-553 | the hand-over of the transition system; the two branches that report a corrupted state are never taken |
| `Kernel.ThreadKernel.FireTimer` | os/thread.c:426-448 | the thread is made runnable with a time-out and the scheduler runs |
| `Kernel.ThreadKernel.CheckTimers` | os/thread.c:450-474 | every due timer fires, in list order |
| `Kernel.ThreadKernel.TickHandler` | lib/ls1c_sys_tick.c:64-87 | the tick step of the transition system; the invariant and the group index hold afterwards |
| `Kernel.ThreadKernel.SuspendThread` | os/thread.c:588-609 | a ready or running thread is in no list, has the new status and no timer; any other is left alone and -1 returned |
| `Kernel.ThreadKernel.ResumeThread` | os/thread.c:611-640 | a waiting or sleeping thread is runnable, out of its list and off the timer list; any other is left alone and -1 returned |
| `Kernel.ThreadKernel.SleepCurrent` | os/thread.c:642-658 | the sleep step of the transition system |
| `Kernel.ThreadKernel.ExitCurrent` | os/thread.c:307-326 | the exit step of the transition system, which `KernelEffects.ExitEffect` describes, on the linked nodes |
| `Kernel.ThreadKernel.KillThread` | os/thread.c:1554-1587 | the kill step; idle and shell threads are spared; killing the current thread hands over |
| `Kernel.ThreadKernel.JoinInit` | os/thread.c:688-760 | a new thread is last of its level; a priority above 31 is refused and changes nothing |
| `Kernel.ThreadKernel.StartThreads` | os/thread.c:813-825 | the best ready thread becomes current and runs |
| `Kernel.ThreadKernel.ReapDead` | os/thread.c:762-793 | exactly the threads of the dead list are forgotten |
| `Kernel.ThreadKernel.SemTake` | os/thread.c:924-986 | the take step of the transition system, which `KernelEffects.TakeEffect` describes, and whether it succeeded at once or blocked |
| `Kernel.ThreadKernel.SemRelease` | os/thread.c:988-1018 | the release step, and whether a waiter was woken |
| `Kernel.ThreadKernel.MbSend` | os/thread.c:1142-1280 | one pass of the send loop, and whether the message was stored |
| `Kernel.ThreadKernel.MbSendFromIrq` | os/thread.c:1282-1285 | a send from an interrupt handler: the message is stored if and only if there is room, and the first parked receiver is woken |
| `Kernel.ThreadKernel.MbReceive` | os/thread.c:1287-1431 | one pass of the receive loop; the value returned is the oldest message |
| `Kernel.ThreadKernel.Yield` | os/thread.c:481-553 | rt_schedule as a step keeps the invariant and reaches no error branch |
| `KernelState.BestIsFirst` | os/thread.c:240-256 | the level chosen has a ready thread and no smaller level has one |
| `KernelInvariant.InOneList` | os/thread.c:345-381 | no thread is in two lists |
| `KernelInvariant.PutLinked` | os/thread.c:345-381 | moving a node between lists keeps every node in at most one list, once |
| `KernelSteps.TopReady` | os/thread.c:494-515 | the thread chosen is READY, of its own level, and never the current one |
| `KernelSteps.ScheduleCore` | os/thread.c:481-553 | a hand-over keeps lists, statuses and timers consistent |
| `KernelSteps.FireIsMove` | os/thread.c:426-448 | a time-out equals making the thread runnable first and rescheduling afterwards, though the code clears the flag last |
| `KernelTick.TimerCheckQuiet` | os/thread.c:450-474 | the timer loop fires every due timer, leaves none due, and disturbs nothing else |
| `KernelTick.TickQuiet` | lib/ls1c_sys_tick.c:64-87 | after the handler no timer is due; waiting lists only lost members, in order; messages and tokens are untouched |
| `KernelTick.ScheduleQuiet` | os/thread.c:481-553 | a hand-over leaves waiting lists, objects and timers alone and moves every ready thread up |
| `KernelRuns.StepInv` | os/thread.c:307-1587 | every enabled step keeps the kernel invariant |
| `KernelRuns.RunInv` | os/thread.c:307-1587 | every state of every run satisfies it |
| `KernelRuns.InitialInv` | os/thread.c:795-811 | the initial states satisfy it |
| `KernelRuns.IrqSendInv` | os/thread.c:1142-1285 | a send from an interrupt handler keeps it, whatever the current thread is doing |
| `KernelRuns.ReapInv` | os/thread.c:762-793 | reaping keeps it and forgets closed threads only |
| `KernelWaiting.WaitersStep` | os/thread.c:924-1431 | exactly how each event changes each waiting list |
| `KernelWaiting.ArrivalOrder` | os/thread.c:924-1018 | threads that go on waiting keep their arrival order in every step |
| `KernelWaiting.WaitEnds` | os/thread.c:426-448 | a wait ends by being served first in line without time-out, by a due timer with time-out, or by a kill |
| `KernelWaiting.SemaphoreAccounts` | os/thread.c:924-1018 | over every run: waiters only at value 0; initial value + releases = value + successful takes, up to 16-bit wraps, exactly while no wrap is possible |
| `KernelWaiting.SemStep` | os/thread.c:924-1018 | only takes and releases change a semaphore's account; a timed-out take consumes nothing |
| `Mailbox.PutAppends` | os/thread.c:1250-1256 | storing in the ring appends to the queue it stands for |
| `Mailbox.GetTakesFirst` | os/thread.c:1393-1400 | fetching takes the oldest message of that queue |
| `KernelMail.BoxStep` | os/thread.c:1142-1431 | which events change a mailbox and how |
| `KernelMail.MailboxIsFifo` | os/thread.c:1142-1431 | over every run: messages accepted = messages handed out followed by those queued; never more than the size queued |
| `KernelMail.NoLostWakeUpStep` | os/thread.c:1142-1431 | parked receivers imply no more messages than receivers on their way, parked senders no more free slots than senders on their way; kept by a step if and only if it is not the kill of a woken thread that cannot be spared |
| `KernelMail.NoLostWakeUpRun` | os/thread.c:1142-1431 | the same over every run without such a kill |
| `KernelWitness.KillLosesWakeUp` | os/thread.c:1554-1587 | a run from the initial state in which the invariant holds until a woken thread is killed, and fails then |
| `KernelMail.ReceiveForeverTimesOut` | os/thread.c:1287-1366 | a receive with RT_WAITING_FOREVER times out at the next tick if and only if it started after tick 0 and before the last tick of the counter |
| `KernelProgress.WaitsForever` | os/thread.c:426-474 | a wait without timer lasts through any run, with any number of ticks, until the thread is served or killed |
| `KernelProgress.TakeForeverWaits` | os/thread.c:924-986 | a blocking take with a negative time starts such a wait |
| `KernelProgress.SendForeverWaits` | os/thread.c:1142-1225 | so does a blocking send with a negative timeout |
| `KernelProgress.StepAdvances` | os/thread.c:481-553 | in every step a ready thread runs or moves up one place per hand-over while nothing better is runnable |
| `KernelProgress.RunsSoon` | os/thread.c:481-553 | a ready thread with k ahead runs within k + 1 hand-overs while nothing better is ready or running |
| `KernelProgress.TickSlices` | lib/ls1c_sys_tick.c:75-82 | a tick uses up one tick of the slice and the last one hands over |
| `KernelProgress.SliceExpires` | lib/ls1c_sys_tick.c:75-82 | while another thread is ready the current one is replaced within the ticks left of its slice, 2^32 for a counter of 0 |
| `KernelProgress.SleepLasts` | os/thread.c:642-658 | for every tick and length, over every run: asleep until the tick that `Duration` gives, runnable when its handler ends |
| `KernelProgress.SleepsExactly` | os/thread.c:642-658 | asleep through n ticks and runnable after tick n + 1, if and only if t + n + 1 < 2^32, or t is the last tick and n at least 1 |
| `KernelProgress.SleepsForEver` | os/thread.c:642-658 | a sleep whose deadline is the last tick of the counter lasts through any run that does not kill the thread |
| `KernelProgress.DurationExact` | os/thread.c:412-422 | for which ticks and lengths the sleep is exact, and for which it never ends |
| `KernelProgress.SleeperTicks` | os/thread.c:450-474 | a tick wakes a sleeper exactly when its deadline has passed |
| `KernelProgress.SleepAlone` | os/thread.c:642-658 | a sleep hands over if and only if a thread is ready; otherwise the sleeper runs on, and its second sleep links its timer twice |
| `KernelProgress.BlockAlone` | os/thread.c:924-986 | a wait while no thread is ready: the current thread runs on, suspended and in the waiting list, without a time-out |
| `KernelEffects.SleepEffect` | os/thread.c:642-658 | the whole state after a sleep: asleep, in no list, the timer in front with deadline now + ticks |
| `KernelEffects.ExitEffect` | os/thread.c:307-326 | the whole state after an exit: the thread is CLOSE, at the front of the dead list and in no other, without timer; all else is as it was |
| `KernelEffects.KillEffect` | os/thread.c:1554-1587 | the whole state after the kill of another thread: CLOSE, out of its list and its timer off, at the front of the dead list; all else is as it was |
| `KernelEffects.KillCurrentEffect` | os/thread.c:1554-1587 | the same for the current thread, after which the first thread of the smallest level runs |
| `KernelEffects.ScheduleEffect` | os/thread.c:481-553 | the whole state after a hand-over: who runs, where the old thread goes, and that nothing else changes |
| `KernelEffects.ScheduleNobody` | os/thread.c:481-553 | with nobody ready rt_schedule changes nothing |
| `KernelEffects.StartEffect` | os/thread.c:813-825 | the whole state after the start |
| `KernelEffects.JoinEffect` | os/thread.c:688-760 | a new thread has the level and slice asked for, is last of its level, and is refused above level 31 |
| `KernelEffects.ReapEffect` | os/thread.c:762-793 | exactly the closed threads are forgotten |
| `KernelEffects.SuspendEffect` | os/thread.c:588-609 | the whole state after a suspend, for every status |
| `KernelEffects.ResumeThreadEffect` | os/thread.c:611-640 | the whole state after a resume, for every status |
| `KernelEffects.TakeEffect` | os/thread.c:924-986 | the whole state after a take: value one down, nothing, or the caller last in the list with its time limit running |
| `KernelEffects.ReleaseEffect` | os/thread.c:988-1018 | the whole state after a release: the first waiter runnable without timer, or the 16-bit value one up |
| `KernelEffects.SendEffect` | os/thread.c:1142-1280 | the whole state after a pass of the send loop: stored and the first receiver woken, waiting with the time limit, or given up |
| `KernelEffects.IrqSendEffect` | os/thread.c:1282-1285 | the whole state after a send from an interrupt handler |
| `KernelEffects.ReceiveEffect` | os/thread.c:1287-1431 | the whole state after a pass of the receive loop |
| `KernelEffects.TickEffect` | lib/ls1c_sys_tick.c:64-87 | the whole state after a tick at which no timer is due |
| `KernelEffects.TickTimes` | lib/ls1c_sys_tick.c:64-87 | at every tick only the running thread's slice changes: one less, or a new one when it is used up; deadlines stay |
| `KernelEnds.WaitLasts` | os/thread.c:924-1431 | a take, send or receive with a time limit, over every run in which the thread is neither served nor killed: suspended in its list until the tick that ends the limit, and runnable with a time-out when its handler ends |
| `KernelEnds.WaiterTicks` | os/thread.c:450-474 | a tick ends a timed wait exactly when its deadline has passed |
| `KernelEnds.ClosedForEver` | os/thread.c:481-553 | a closed thread stays closed and is never handed the processor again, until it is forgotten |
| `KernelEnds.EndsForEver` | os/thread.c:307-326 | the same from the exit or the kill on |
| `Heap.Allocator.constructor` | os/mem.c:144-218 | one free block from the aligned start to the sentinel, lfree at it, nothing used |
| `Heap.Allocator.FindFit` | os/mem.c:271-278 | the first fitting block from lfree on; the search fails if and only if at most an exact fit at the very end is left |
| `Heap.Allocator.WriteSplit` | os/mem.c:297-315 | the headers after a split are those of the two blocks; the kept payload is untouched |
| `Heap.Allocator.WriteJoin` | os/mem.c:114-115 | the headers after a merge are those of the merged block |
| `Heap.Allocator.Absorb` | os/mem.c:104-116 | merging two free blocks keeps live blocks, used bytes, payloads and the lowest-free pointer valid |
| `Heap.Allocator.PlugHoles` | os/mem.c:94-131 | afterwards no two neighbouring blocks are free; live blocks, used bytes and payloads are unchanged |
| `Heap.Allocator.AdvanceLfree` | os/mem.c:346-351 | lfree is a free block or the sentinel, and the lowest one if it was |
| `Heap.Allocator.Malloc` | os/mem.c:235-387 | a new live block, aligned and large enough, first fit; other payloads untouched; NULL if and only if the size is 0 or too large, or nothing fits |
| `Heap.Allocator.Free` | os/mem.c:522-588 | exactly the given block is no longer live; used_mem drops by its length; other payloads untouched |
| `Heap.Allocator.Shrink` | os/mem.c:447-474 | the block keeps its start and its first bytes; the tail is free; lfree stays the lowest free block if and only if it lay below, or at the free block joined behind |
| `Heap.Allocator.Move` | os/mem.c:477-485 | the contents are in a new block, the old one is free; it fails if and only if nothing fits, and then nothing changed |
| `Heap.Allocator.Realloc` | os/mem.c:398-486 | the first min(old, new) bytes are kept, other payloads are untouched, for NULL, foreign and live pointers and every size; NULL if and only if the size is 0 or too large, or a new block is needed and nothing fits; the block stays where it is when none is needed; only the shrinking branch can leave lfree above the lowest free block, and exactly when |
| `Heap.Session` | os/mem.c:144-588 | any run of requests followed by freeing all pointers leaves one free block, used_mem 0 and lfree at it |
| `Heap.SameSizeFails` | os/mem.c:436-485 | a block of 40 bytes, and a realloc to 40 bytes that returns NULL |
| `HeapBlocks.Canonical` | os/mem.c:94-131 | heaps with the same live blocks have the same block list, so freeing undoes allocating in any order |
| `HeapBlocks.NothingLive` | os/mem.c:557-583 | with nothing live one free block is left and used_mem is 0 |
| `HeapBlocks.LiveApart` | os/mem.c:235-387 | live blocks are disjoint, aligned and inside the heap |
| `HeapBlocks.LowestFit` | os/mem.c:271-354 | while lfree is the lowest free block, malloc takes the lowest fitting one, and a failed search means the only fit is exact at mem_size_aligned - size |
| `HeapWords.ReplaceLaid` | os/mem.c:297-315 | memory holds the headers of the new block list when it holds those of the replaced stretch and nothing else changed |
| `HeapWords.OthersKept` | os/mem.c:235-588 | writes inside a stretch keep every payload outside it |
| `Sqrt.SquareRoot` | libm/e_sqrt.c:94-193 | the correctly rounded root of every finite double in each of the four modes, and the special cases |
| `Sqrt.Normalize` | libm/e_sqrt.c:119-132 | significand and exponent represent the argument exactly, normal or subnormal |
| `Sqrt.FillHighWord` | libm/e_sqrt.c:122-125 | the shifts by 21 keep the represented value |
| `Sqrt.ShiftToLeadingBit` | libm/e_sqrt.c:126 | the leading bit reaches position 20 |
| `Sqrt.HighDigits` | libm/e_sqrt.c:145-155 | after 22 digits q is the integer root so far with its exact remainder |
| `Sqrt.LowDigits` | libm/e_sqrt.c:157-172 | after 32 more digits the same holds of q:q1 |
| `Sqrt.LowDigit` | libm/e_sqrt.c:159-170 | one two-word step with its borrow and carry |
| `Sqrt.DigitStep` | libm/e_sqrt.c:145-172 | the digit recurrence keeps root and remainder |
| `Sqrt.DigitsDone` | libm/e_sqrt.c:145-172 | the digits are the floor of the root, and the remainder is zero exactly when it is exact |
| `Sqrt.EvenExponent` | libm/e_sqrt.c:131-137 | the exponent made even and halved accounts for the argument's value |
| `Sqrt.RoundWords` | libm/e_sqrt.c:174-186 | the rounding branches, with the carry from q1 to q, round the digit string in each mode |
| `Sqrt.Pack` | libm/e_sqrt.c:187-191 | the packed words have the rounded significand and the halved exponent |
| `Sqrt.RootCorrectlyRounded` | libm/e_sqrt.c:174-191 | the rounded digits are closest to the root among all doubles; a half-way case never occurs |
| `Devfs.Biodev.ReadDevice` | os/filesys/devfs.c:32-38 | the blocks that hold the offset |
| `Devfs.Biodev.Lseek` | os/filesys/devfs.c:245-260 | the new offset relative to the partition |
| `Devfs.Biodev.Read` | os/filesys/devfs.c:112-188 | exactly the device bytes at the offset, which advances; only aligned whole-block requests of at most MAXPHYS |
| `Devfs.Biodev.ReadChunk` | os/filesys/devfs.c:147-184 | one request makes progress and delivers its share |
| `Fat.FatFile.ReadSector` | os/filesys/fatfs.c:23-33 | the sectors of the volume |
| `Fat.FatFile.Entry12` | os/filesys/fatfs.c:47-91 | a FAT12 entry equals direct decoding of the table, also across sectors |
| `Fat.FatFile.GetFatEntry` | os/filesys/fatfs.c:36-129 | the cached read equals the table on disk for any order of queries |
| `Fat.SpecChainFollowed` | os/filesys/fatfs.c:112-215 | a chain of the specification is the one fat_getChain follows if and only if the reserved bits are clear in all its entries but an end mark |
| `Fat.FatFile.GetChain` | os/filesys/fatfs.c:137-215 | exactly the successor chain, its two passes agreeing; -1 exactly for a bad chain |
| `Fat.ChainNeverRepeats` | os/filesys/fatfs.c:137-215 | a chain that ends visits no cluster twice |
| `Fat.ChainUnique` | os/filesys/fatfs.c:137-215 | from one start there is one chain |
| `FatTable.MarksOfMasks` | os/filesys/fatfs.c:166-172 | the masks give 2^w - 9 for a bad cluster and 2^w - 8 for the end, with w = 12, 16 or 28 |
| `FatTable.ChainInNumbers` | os/filesys/fatfs.c:137-215 | in these numbers: where the chain that fat_getChain follows goes on, is bad, and ends |
| `FatTable.EntryBits` | os/filesys/fatfs.c:36-129 | bit j of entry n is bit w * n + j of the table, for entries of w = 12, 16 or 32 bits |
| `FatTable.FileLayout` | os/filesys/fatfs.c:820-822 | byte x of a file lies at place x mod C of the cluster at place x / C of its chain, clusters of C bytes following each other from number 2 on |
| `Fat.FatFile.GetSectorIndexRead` | os/filesys/fatfs.c:790-828 | the sector of a file sector, and a run of sectors that are neighbours in the file too |
| `Fat.FatFile.FillBuffer` | os/filesys/fatfs.c:687-699 | the buffer holds the file's sectors around the position |
| `Fat.HitIsSound` | os/filesys/fatfs.c:690-699 | a sector found in the buffer is the file sector it stands for |
| `Fat.FatFile.Read` | os/filesys/fatfs.c:658-729 | the file's bytes from posn, cut at FileSize; posn advances by that many |
| `Fat.FatFile.Seek` | os/filesys/fatfs.c:737-768 | the new position, -1 for an unknown origin |
| `Fat.Session` | os/filesys/fatfs.c:658-768 | every sequence of seeks and reads returns what the file holds, also of an empty file without clusters |
| `Env.Cksum` | os/env.c:211-234 | after storing the checksum the words sum to zero; otherwise their sum is returned |
| `Env.WordSumAppend` | os/env.c:211-234 | the sum of two pieces, cut between words, is the sum of both |
| `Env.OneByteDetected` | os/env.c:211-234 | no change of a single byte of a checksummed image goes unnoticed |
| `Env.NameAt` | os/env.c:303-311 | whether the entry carries the name |
| `Env.DeleteAt` | os/env.c:312-322 | the image holds the other entries, checksummed |
| `Env.FindEnd` | os/env.c:376-384 | the position behind the last entry |
| `Env.WriteEntry` | os/env.c:391-404 | name, '=', value and two NULs lie at the position, and the last index written is returned |
| `Env.EntryFits` | os/env.c:391-404 | an entry written inside the image extends its list |
| `Env.FillUp` | os/env.c:375-404 | from an empty environment sixteen of the longest entries fit and the seventeenth, which the free-space test lets pass, is written past the buffer |
| `Env.Store.UnsetRom` | os/env.c:281-336 | the flash holds the entries without that name, checksummed; the status says whether one went |
| `Env.Store.SetRom` | os/env.c:339-488 | the flash holds the new value of the name and all other entries, checksummed; too long names and values are refused; bytes behind the buffer are written if and only if the entry does not fit |
| `Env.Store.SetMem` | os/env.c:159-208 | the table is the old map with this name updated, or unchanged when full |
| `Env.Store.Reset` | os/env.c:248-278 | an empty checksummed image |
| `Env.Store.MapRom` | os/env.c:490-584 | for any flash content: a bad checksum resets, otherwise the table gets what the image holds |
| `Env.Store.LoadImage` | os/env.c:518-542 | the table gets every entry of the image, or parsing stops and is reported |
| `Env.ReloadGivesMap` | os/env.c:518-542 | reading back a well-formed image gives the map of its entries |
| `Env.ReadsBack` | os/env.c:521-530 | a stored pair is read back as it was if and only if its name does not contain '=' |
| `Env.Store.DoSetenv` | os/env.c:666-675 | table and flash stay equal exactly when both or neither can take the entry; the buffer is overrun exactly when a storable entry does not fit |
| `Env.Store.Reboot` | os/env.c:490-545 | reloading gives the same map as the table |
| `Env.Store.Session` | os/env.c:666-675 | any sequence of settings within the limits keeps flash and table equal |
| `Tftp.TftpFile.Rrq` | os/filesys/tftplib.c:153-262 | the receive loop follows its specification for every script of network events, from any state |
| `Tftp.TftpFile.Open` | os/filesys/tftplib.c:449-459 | so does opening |
| `Tftp.TftpFile.Refill` | os/filesys/tftplib.c:509-524 | and fetching the next block, whatever happened to the last one |
| `Tftp.TftpFile.Read` | os/filesys/tftplib.c:477-528 | and reading any amount, also after a failed read |
| `Tftp.TftpFile.Seek` | os/filesys/tftplib.c:581-612 | and seeking, which refuses targets below the buffered block |
| `Tftp.RrqGets` | os/filesys/tftplib.c:153-262 | the block returned is the one the client's number asks for, whatever the network did |
| `Tftp.RrqProgress` | os/filesys/tftplib.c:153-262 | with at most 100 time-outs, repeats of the block before and packets of other ports ahead of it, the expected block is taken and its length returned |
| `Tftp.RrqGivesUp` | os/filesys/tftplib.c:191-204 | with 101 time-outs the result is -2 |
| `Tftp.RrqFails` | os/filesys/tftplib.c:153-262 | after a failure, an error from the peer or a block out of order from it the result is -1 |
| `Tftp.OpenConnects` | os/filesys/tftplib.c:449-459 | an open file is at offset 0 with its first block |
| `Tftp.RefillMoves` | os/filesys/tftplib.c:509-524 | a failed fetch leaves the number one block further ahead of the offset, a good one keeps the distance |
| `Tftp.ReadDelivers` | os/filesys/tftplib.c:477-528 | after f failed reads a read at offset x delivers the file's bytes from x + 512 * f on, as many as asked for and available; one that fails adds one to f |
| `Tftp.SkippedBlock` | os/filesys/tftplib.c:509-520 | open, a read whose next block is lost, and a read: the caller has the first block and then the third |
| `Tftp.ReadOn` | os/filesys/tftplib.c:477-528 | any reads in a row, whatever they return: each delivers the file's bytes 512 places too far for every earlier one that returned -1 |
| `Tftp.SeekKeeps` | os/filesys/tftplib.c:581-612 | seeking keeps all that, except back into a buffer that a failed read left behind |
| `Tftp.SeekLands` | os/filesys/tftplib.c:581-612 | after a seek to x, from the start or from the current offset, a read delivers the file's bytes from x on; below the buffered block it is refused and nothing moves |
| `Tftp.OpenSucceeds` | os/filesys/tftplib.c:449-459 | opening succeeds when the first block comes within its time-outs |
| `Tftp.ReadSucceeds` | os/filesys/tftplib.c:477-528 | a read of any amount succeeds when every block comes within its time-outs |
| `Tftp.LastAcknowledged` | os/filesys/tftplib.c:153-180 | at the end of the file the last block is acknowledged without waiting |
| `Tftp.NeverMoreThanOneApart` | os/filesys/tftplib.c:124-129 | client and server are at most one block apart |
| `Tftp.BlocksMakeFile` | os/filesys/tftplib.c:153-262 | the blocks in order make up the file |
| `Tftp.Download` | os/filesys/filesys.c:250-280 | a caller that stops at the first failed read has a prefix of the file, and the file when the transfer ends well; it does when every block comes within its time-outs |
| `TftpWrite.Upload.Select` | os/filesys/tftplib.c:288-315 | what reaches the client, as the servers and the network act |
| `TftpWrite.Upload.Wrq` | os/filesys/tftplib.c:266-356 | the send loop follows its specification for every script of network events |
| `TftpWrite.Upload.Open` | os/filesys/tftplib.c:460-468 | so does opening for writing |
| `TftpWrite.Upload.Write` | os/filesys/tftplib.c:530-570 | and writing any amount, also after a failed write |
| `TftpWrite.Upload.Close` | os/filesys/tftplib.c:622-670 | and closing, whose result is 0 in any case |
| `TftpWrite.WrqKeeps` | os/filesys/tftplib.c:266-356 | a block reported as sent has been taken by the chosen server |
| `TftpWrite.WrqProgress` | os/filesys/tftplib.c:266-356 | behind time-outs within the limit, repeats of the acknowledgement before and packets of other ports, the acknowledgement is taken and the block reported as sent |
| `TftpWrite.WrqGivesUp` | os/filesys/tftplib.c:294-304 | at the time-out after the last the client counts the call fails |
| `TftpWrite.WrqFails` | os/filesys/tftplib.c:266-356 | after a failure, an error from the peer or an acknowledgement out of order from it the call fails |
| `TftpWrite.WriteSucceeds` | os/filesys/tftplib.c:530-570 | a write succeeds when every block is acknowledged within its time-outs |
| `TftpWrite.OpenKeeps` | os/filesys/tftplib.c:460-468 | after opening a server is chosen and nothing is written |
| `TftpWrite.WriteKeeps` | os/filesys/tftplib.c:530-570 | a write takes everything, each full block taken by the server, or fails with a part of the data sent |
| `TftpWrite.CloseInOrder` | os/filesys/tftplib.c:632-648 | without a failed write the server holds a prefix of what was written, and all of it when the last block is acknowledged |
| `TftpWrite.CloseAfterFailure` | os/filesys/tftplib.c:632-648 | after a failed write the server holds a prefix of what was written if and only if it does not take the block sent again; otherwise it has that block twice |
| `TftpWrite.WriteAfter` | os/filesys/tftplib.c:530-570 | any write after a failed one keeps what is known of the server: the blocks of the first failure in order, the last of them possibly twice |
| `TftpWrite.PeerAfterFailure` | os/filesys/tftplib.c:530-648 | after a failed write, whatever writes follow, the server holds a prefix of what was sent until then if and only if it took no block since |
| `TftpWrite.StoredTwice` | os/filesys/tftplib.c:530-648 | open, a write whose acknowledgement is lost, and close: the server ends up with the block twice |
| `TftpWrite.StoredIsPrefix` | os/filesys/tftplib.c:266-356 | what any server stores is a prefix of the blocks sent |
| `TftpWrite.AckMeansStored` | os/filesys/tftplib.c:338-343 | an acknowledgement of the last block means that everything sent is stored |
| `TftpWrite.AtMostOneApart` | os/filesys/tftplib.c:124-129 | client and server are at most one block apart, and no other server stores anything |
| `TftpWrite.Store` | os/filesys/tftplib.c:447-670 | a whole upload in pieces, given up or continued after a failed write and closed whatever happened: the server holds a prefix of what was written until the failure if and only if no write failed or it took no block since, and all of it when every call went well; every call does when each block is acknowledged within its time-outs |
| `Glob.StrPosn` | os/common_fun.c:345-370 | the leftmost occurrence, or none |
| `Glob.StarBranch` | os/common_fun.c:403-413 | one star with its literal run, against the greedy matcher |
| `Glob.StrPat` | os/common_fun.c:377-426 | 1 exactly when the greedy matcher accepts; 0 for null pointers |
| `Glob.AcceptedMatches` | os/common_fun.c:377-426 | what is accepted matches, for every pattern |
| `Glob.HandledDecides` | os/common_fun.c:377-426 | for handled patterns acceptance is matching |
| `Glob.DecidesExactlyHandled` | os/common_fun.c:377-426 | a pattern of up to 126 characters is decided on every subject the buffers hold if and only if it is handled |
| `Glob.DecidesWithin` | os/common_fun.c:377-426 | the same for buffers of any size that hold twice the pattern |
| `Glob.DecidesExactly` | os/common_fun.c:377-426 | for every pattern and buffers of any size: every subject that fits is decided if and only if a shortest match and the slack together do not fit |
| `Glob.RejectedIsLong` | os/common_fun.c:377-426 | for every pattern: a subject that is rejected wrongly is as long as a shortest match and the slack together, or longer |
| `Glob.RejectedExists` | os/common_fun.c:377-426 | and there is one of exactly that length |
| `Glob.HandledNoSlack` | os/common_fun.c:377-426 | the handled patterns are exactly those without slack |
| `Glob.HandledDecidesAll` | os/common_fun.c:377-426 | a handled pattern of any length is decided |
| `Glob.LongPatternDecided` | os/common_fun.c:377-426 | a pattern of 129 characters that is not handled and yet decided on every subject that fits |
| `Glob.NetworkPatternHandled` | os/filesys/filesys.c:120 | the pattern for network names is handled |

## Left out

- Context switching, stacks, stack checks and interrupt masks: hardware state; each section with interrupts off is one step.
- KernelRuns.StepInv: the steps that block require a ready thread; KernelProgress.SleepAlone and KernelProgress.BlockAlone say what the others do, but runs do not go on from there, since a second sleep links the timer twice.
- rt_sem_delete, rt_sem_detach and rt_mb_delete: they wake waiters with a success code, so the guarantees do not cover them.
- The recalculation of remaining time in the mailbox retry loops (os/thread.c:1236-1243, 1380-1387): each pass may come with any timeout.
- Receives and blocking sends from an interrupt handler: only a send that does not wait is modelled there.
- Kernel.ThreadKernel.JoinInit: allocation failures, a stack size of 0 and negative priorities are not modelled.
- The heap lock and the early returns that keep it taken (os/mem.c:246-247, 259-264, 528-529, 538-544): each heap operation is one step.
- Heap.Allocator.constructor: a region too small for one minimal block is not modelled.
- Heap.Allocator.Free: a pointer that is not a live allocation is not modelled; the code asserts.
- Heap.Allocator.Malloc: requests that wrap when aligned are excluded; calloc adds nothing but a product and a fill.
- FAT directories, long names and path handling; sector sizes other than 512; chains that never end.
- Fat.FatFile.OpenFile: the read buffer is an owned array; the early free at os/filesys/fatfs.c:522 is not modelled.
- Fat.FatFile.Read: a negative position, which a seek can leave behind, indexes the buffer below its start and is excluded; device reads always succeed, as read_device reports.
- getenv's not-found case, SPI transfers and allocation failures in the environment; flash is a byte sequence.
- Env.Store.DoSetenv: names with '=' are excluded because they are never read back; check_mac_format is a parameter.
- Env.Store.SetRom: names with '=' are excluded; null values are not modelled; what an overrun does to the memory behind the buffer is not described.
- TFTP retry timing, host lookup, select and the error packet that ends an unfinished read: an abstract network that may drop, repeat and reorder.
- Tftp.ReadDelivers: blocks of the file and failed reads together must stay below 65535, since the block number has 16 bits; the same limits Tftp.Download and Tftp.ReadOn.
- Tftp.SeekKeeps: what a read delivers after a seek back into the buffer that a failed read left behind is not stated.
- TftpWrite.Store: uploads of 65533 blocks or more are excluded, since the block number has 16 bits; after a failed write each later one may count an extra block.
- Glob.DecidesExactly: subjects and patterns with the character 0xA4, which strpat itself appends as the end anchor, are excluded.
- Glob.StrPat: subject and pattern must fit the 256-byte buffers, as the code assumes without checking.
- Peripheral drivers, USB, frame buffer, NAND, program loading, gzip, shell, pow, scalbn and printf: device access or easy members.
