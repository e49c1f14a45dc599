# A verified model of the kernel's state machinery

This project models the parts of the kernel that keep delicate shared state, and proves what they promise:

- **Messages** (`Ipc`, `Mailbox`, `IpcRefinement`, `IpcReceives`, `IpcInterrupts`, `IpcChecks`, `IpcExchange`, `IpcCode`): the
  rendezvous of senders, receivers, interrupts and the scheduler's polling, as a step system in which every spinlocked
  section and every atomic operation is one step. Every run is shown to be a run of a mailbox automaton, and the
  promises are read off that automaton's log. `IpcCode` is the code of the calls, each tied to the steps that it
  consists of.
- **Scheduling** (`Scheduler`, `SchedulerSteps`, `SchedulerLists`, `SchedulerInvariant`, `SchedulerSafety`,
  `SchedulerExit`, `SchedulerEffects`, `SchedulerRuns`, `SchedulerEnters`, `SchedulerHolds`, `SchedulerQueues`, `SchedulerWalk`,
  `SchedulerVisits`, `SchedulerPolls`, `SchedulerPollsEnd`, `SchedulerOrder`, `SchedulerTimes`, `SchedulerCode`,
  `VrunTime`): tasks on several CPUs move between ready lists, waiting lists, semaphore queues and lists of exited
  children. `Scheduler` defines the operations on values, `SchedulerSteps` interleaves them, `SchedulerCode` is the
  code with its loops, tied to the operations; the other modules prove the invariants. `SchedulerPolls` and
  `SchedulerPollsEnd` run the scheduler and the message protocol together. `VrunTime` is the arithmetic of virtual run
  times.
- **Semaphores** (`Semaphore`), the intrusive **list** under all queues (`List`) and the **task table** (`TaskTable`).
- **Memory**: the bit map search and the physical pages on it (`Bitmap`, `PhysPages`); the kernel heap (`Blocks`,
  `Allocator`, `AllocatorSafety`, `KernelHeap`); the three-level page tables (`PageTable`, `PageTableRights`,
  `PageTableCode`, `PageTableFree`); the virtual range tables (`Vmm`, `VmmRanges`, `VmmCanonical`) and the page
  services that move pages between them (`KernMem`, `KernMemRuns`) and back to the physical allocator (`KernPages`).
- **xHCI rings** (`XhciRing`), the **edge sort** of the vendored rasteriser (`EdgeSort`) and the **number printer**
  (`NumberPrinter`).

Code that updates state in place is modelled by classes and methods; each method is tied to a function on values, and the
promises are lemmas about those functions and about runs of them. 64-bit words wrap where the source's do (`Words.Wrap`).
`Arithmetic`, `Sequences`, `Options` and `Constants` hold what the modules share.

Some things the proofs brought to light:

- The comparison of virtual run times orders a set of times if and only if they lie in one window narrower than 2^63
  (`SchedulerOrder.OrderIffWindow`). For fewer than 2^35 ticks from a CPU's start, its idle task included, all times
  provably lie in one (`VrunTime.TimesStayInWindow`), and the ready lists are in order
  (`SchedulerTimes.LeastTimeRuns`).
- `inform_exit` reads the parent's pid before it takes the parent's lock. That is sound only because a parent that can
  exit is always on its child's CPU (`SchedulerSafety.InformKeeps`).
- A removal from a range table is wrong exactly when the end of the range wraps around into a block or when an empty
  range lies strictly inside a block of a table with room (`VmmCanonical.RemovesRightUnless`, with an example of
  each).
- `kern_free_page` looks at the outcome of neither table edit. The two tables stay complementary exactly when the page
  is in use and both have room, or when neither table is touched (`KernMem.FreeingAnyAddress`, and over runs
  `KernMemRuns.TablesAlwaysPartition`). `KernMemRuns.NoRoomExample` is a run to a page in use that cannot go back, for
  every capacity, and `KernMemRuns.FreedTwiceExample` one after which the tables are no partition.
- Every call of `msg_recv` returns what it asked for (`IpcReceives.ReturnsAnswerCalls`), and an interrupt reported
  while a task waits for one is what that very call returns (`IpcInterrupts.NextIsInterrupt`).
- A CPU whose task holds a spinlock runs no other task, whatever the other CPUs do (`SchedulerHolds.HolderStaysOn`).
- No wake-up is missed: a check of a waiter that begins when there is a reason to wake it ends with waking it,
  whatever senders, receivers, interrupts and other CPUs do in between (`IpcChecks.NoWakeUpMissed`,
  `SchedulerPolls.EachVisitedOnce`).
- A controller resting in front of the Link TRB is overrun by a full further lap and never reads again; one spare slot
  is needed (`XhciRing.FullLapHidesEverything`, `XhciRing.FullLapExample` for every ring size,
  `XhciRing.ReaderDrains`).
- `kmalloc` with size zero and a boundary fails, with the group's lock still held, exactly when the alignment is 0
  (the mask is then all ones) or every free block starts at the boundary, as those of a new page do for a boundary of
  64 (`AllocatorSafety.KmallocSucceeds`, `AllocatorSafety.ZeroSizeExamples`).
- `bitmap_alloc` reports one of two different errors when no run exists, depending on the last bit
  (`Bitmap.BitMap.Alloc`).

## Model

| member | source | states |
|---|---|---|
| Mailbox.SendsPairWithCopies | src/arch/x86_64/syscall/ipc.c:37-81 | in a legal log, the messages copied out of a task are the first ones it posted, in order, and it finishes a send only after the copy, at most one send being under way |
| Mailbox.CopiesPairWithReturns | src/arch/x86_64/syscall/ipc.c:133-180 | what a receive returns is, in order, what was copied for that receiver, at most one copy being in hand |
| Mailbox.Locate | src/arch/x86_64/syscall/ipc.c:37-52 | the mail waiting for a task is exactly its posts not yet taken, in the order in which they were posted |
| Mailbox.FirstComeFirstServed | src/arch/x86_64/syscall/ipc.c:153-168 | under RECV_FROM_ANY the message taken is the oldest one waiting |
| Ipc.StepKeepsInv | src/arch/x86_64/syscall/ipc.c:16-223 | every step of every task, interrupt and poll keeps the invariant that ties flags, queues and program points together, and never follows a null or stale pointer |
| IpcRefinement.StepSimulates | src/arch/x86_64/syscall/ipc.c:37-180 | every step is silent or one legal event of the mailbox automaton |
| IpcRefinement.RunsRefineMailbox | src/arch/x86_64/syscall/ipc.c:37-223 | after every run the log is legal and the kernel's state mirrors the automaton's |
| IpcRefinement.EverySendPairsWithOneReceive | src/arch/x86_64/syscall/ipc.c:37-81 | in every interleaving the k-th completed send of a task, with the message and destination handed to msg_send, is one copy event, at increasing positions of the log, and one position of what the receiver copied; different copies have different positions; msg_recv returns what was copied in order, each once |
| IpcRefinement.PostsAreBegins | src/arch/x86_64/syscall/ipc.c:54-68 | what a task has posted is what it called msg_send with, in order, but for the call under way |
| Mailbox.RankIs | src/arch/x86_64/syscall/ipc.c:173-180 | a copy's rank finds it among all that its receiver copied, and no other copy has it |
| IpcRefinement.ReceiversServeInOrder | src/arch/x86_64/syscall/ipc.c:150-168 | list_pop never meets an empty sender list, and takes senders in order of arrival |
| IpcRefinement.SendFlagBounded | src/arch/x86_64/syscall/ipc.c:37-81 | send_flag, read as signed, is -1, 0 or 1; it is -1 exactly when the acknowledgement came before the sender's own increment; a waiting sender is acknowledged exactly when it is not positive |
| IpcRefinement.WakeUpIsStable | src/arch/x86_64/syscall/ipc.c:182-223 | once task_ipc_check has let a receiver go, its condition still holds when it consumes; a sender is let go only after its acknowledgement |
| IpcReceives.ReturnsAnswerCalls | src/arch/x86_64/syscall/ipc.c:133-180 | over every run, read off the steps and the log: the k-th return of msg_recv answers the k-th accepted call; a call for a task returns a message of that task, for which that task was taken off the list, a call for interrupts returns an interrupt, a call for anybody either; at most the last call is still to return |
| IpcReceives.MessagesAreDeliveries | src/arch/x86_64/syscall/ipc.c:173-180 | the messages among the returns are what was delivered, in order |
| IpcInterrupts.InterruptsRecorded | src/arch/x86_64/syscall/ipc.c:16-31 | over every run has_intr_msg is set exactly when inform_intr was called for the existing task since it was told last |
| IpcInterrupts.ReportedIs | src/arch/x86_64/syscall/ipc.c:16-31 | that is, when some step reports an interrupt and no later one tells or ends the task |
| IpcInterrupts.RaisesAreReports | src/arch/x86_64/syscall/ipc.c:16-31 | the interrupts of the log are exactly the calls of inform_intr for existing tasks, in order |
| IpcInterrupts.NextIsInterrupt | src/arch/x86_64/syscall/ipc.c:148-163 | in every interleaving, an interrupt reported while a task is in a call for interrupts or for anybody, before it looks, is what this call returns; while it waits there is a reason to let it go |
| IpcInterrupts.InterruptGetsThrough | src/arch/x86_64/syscall/ipc.c:16-223 | from such a wait in any reachable state: report, three reads, wake-up and two steps of msg_recv return the interrupt |
| IpcExchange.MessageGetsThrough | src/arch/x86_64/syscall/ipc.c:37-223 | from every reachable state with two idle tasks, whatever the others are in the middle of: their own steps and their polls bring the message of one to the other, which asked for it, both calls return, and both tasks are idle again |
| IpcExchange.TwoTasksCreated | src/arch/x86_64/task/task.c:147-201 | such states are reachable |
| IpcCode.Kernel.WaitReceived | src/arch/x86_64/syscall/ipc.c:37-52 | performs the three steps of joining the receiver's list, counting and blocking, in this order |
| IpcCode.Kernel.MsgSend | src/arch/x86_64/syscall/ipc.c:54-68 | refused exactly when the destination does not exist; the whole new state as the steps of a send |
| IpcCode.Kernel.InformReceived | src/arch/x86_64/syscall/ipc.c:75-81 | performs the two steps of the acknowledgement |
| IpcCode.Kernel.MsgRecvBegin | src/arch/x86_64/syscall/ipc.c:133-151 | refused exactly when a named source does not exist; the whole new state up to the block |
| IpcCode.Kernel.MsgRecvFinish | src/arch/x86_64/syscall/ipc.c:153-179 | a woken receiver returns the interrupt, or the message that its last step reports as delivered |
| IpcCode.Kernel.TaskIpcCheck | src/arch/x86_64/syscall/ipc.c:182-223 | the answer and the new state are those of the sequence of reads of the step system |
| IpcCode.CheckOutcome | src/arch/x86_64/syscall/ipc.c:182-223 | the exact condition under which an undisturbed check lets a task go, and that it changes nothing otherwise |
| Scheduler.InsertPos | src/arch/x86_64/task/schedule.c:212-223 | the place found is the first whose task is later under the wrapping signed comparison |
| SchedulerLists.LinkListed | src/lib/list.c:19-28 | putting a node that is on no list onto one keeps all lists disjoint and duplicate-free |
| SchedulerLists.UnlinkListed | src/lib/list.c:42-49 | taking a node off keeps all lists disjoint and duplicate-free |
| SchedulerInvariant.LooseInsert | src/arch/x86_64/task/schedule.c:203-228 | inserting a task that is on no list restores the invariant, counters included |
| SchedulerSafety.SwitchOutKeeps | src/arch/x86_64/task/schedule.c:163-184 | leaving the CPU puts the task on the one list that matches its status |
| SchedulerSafety.InformKeeps | src/arch/x86_64/task/schedule.c:73-82 | an exiting task reaches its parent's list: the pid read before the lock still names its parent |
| SchedulerSafety.CheckNextKeeps | src/arch/x86_64/task/schedule.c:98-115 | each visit of the walk keeps the invariant, whatever other CPUs do in between |
| SchedulerSafety.PickNextKeeps | src/arch/x86_64/task/schedule.c:125-144 | some task can always be picked, and afterwards it runs |
| SchedulerSafety.SemaWaitKeeps | src/sync/semaphore.c:28-33 | joining a semaphore's queue and blocking keeps the invariant |
| SchedulerSafety.SemaWakeKeeps | src/sync/semaphore.c:42-47 | waking the first waiter keeps the invariant |
| SchedulerExit.AdoptKeeps | src/arch/x86_64/task/task.c:114-145 | the children of the exiting task, and no other task, get the main task of their CPU as parent; afterwards nobody has the exiting task as parent, its list of exited children is empty, and they stand at the end of the lists of their new parents in the order in which they exited; the invariant is kept |
| SchedulerExit.ReapKeeps | src/kernel/service/kern_task.c:117-141 | taking the first exited child off and freeing its slot keeps the invariant; no list, no task's parent and no CPU's main or idle task names it, and a CPU names it as the one that ran last only until its walk ends |
| SchedulerExit.StartCpuKeeps | src/arch/x86_64/task/task.c:303-332 | starting a CPU with its main and idle tasks keeps the invariant |
| SchedulerRuns.StepKeeps | src/arch/x86_64/task/schedule.c:89-228 | every step of every CPU keeps the scheduler's invariant |
| SchedulerRuns.AtMostOneList | src/arch/x86_64/task/schedule.c:89-228 | in every reachable state a task's node is at one position of at most one list, and that list matches its status, CPU or parent |
| SchedulerRuns.NobodyIsLost | src/arch/x86_64/task/schedule.c:150-201 | a task on no list is executing, or is the idle task at rest |
| SchedulerRuns.CountersMatch | src/arch/x86_64/task/schedule.c:203-228 | running_tasks is the length of task_list, total_weight its weight sum modulo 2^64 |
| SchedulerRuns.SomeTaskRuns | src/arch/x86_64/task/schedule.c:188-198 | at the end of the walk some task, the idle one at worst, is picked and runs |
| SchedulerEnters.GivesUpCpu | src/arch/x86_64/task/schedule.c:163-271 | every call that gives the CPU up takes its status into schedule(), and when the walk begins the task is on that status's list, at its end where the list is a queue |
| SchedulerEnters.SpawnedIsReady | src/arch/x86_64/task/task.c:217-253 | a new task is ready, on the list of the CPU that started it, as a child of the task that did |
| SchedulerEnters.StartedRuns | src/arch/x86_64/task/task.c:303-332 | a CPU that starts runs its main task, and its idle task is ready |
| SchedulerHolds.HolderStays | src/arch/x86_64/task/schedule.c:156-159 | whatever step is taken on whatever CPU, a CPU whose task holds a spinlock goes on running that task, with the same preempt count, until the task itself gives the last one back |
| SchedulerHolds.HolderStaysOn | src/arch/x86_64/task/schedule.c:156-159 | and so over every run of all CPUs |
| SchedulerQueues.WakeTakesFirst | src/sync/semaphore.c:39-50 | sema_up takes the first waiter and makes it ready |
| SchedulerQueues.WokenInOrder | src/sync/semaphore.c:22-50 | over every run of all CPUs the tasks woken from a semaphore's queue are the first that joined it, and the others are in it in the order in which they joined |
| SchedulerVisits.ScheduleEnds | src/arch/x86_64/task/schedule.c:163-201 | from wherever a CPU is inside schedule(), its own steps, at most one visit for each waiter, end with a running task |
| SchedulerWalk.WalkExact | src/arch/x86_64/task/schedule.c:89-118 | the walk without interference visits each waiter once and leaves exactly those whose condition does not hold, in order, for every sequence of answers |
| SchedulerVisits.WalkInterleaved | src/arch/x86_64/task/schedule.c:89-118 | in every interleaving of all CPUs the walk visits the waiters one after the other, each once, and keeps in order those that stay at their visit |
| SchedulerVisits.WholeWalk | src/arch/x86_64/task/schedule.c:89-118 | at its end every waiter was visited exactly once, and the list holds those that stayed, in order |
| SchedulerPolls.NextKeeps | src/arch/x86_64/task/schedule.c:98-115 | scheduler and message protocol in one system, each check being the protocol's own reads between two steps of the walk: every step keeps both invariants, that a task waiting in one waits in the other, and that a check under way will let its task go if there was a reason when it began |
| SchedulerPolls.PollIsRight | src/arch/x86_64/task/schedule.c:108-115 | a waiter for messages for whom there was a reason when its check began leaves the list, and one that leaves has a reason when it does; a waiter for a child leaves exactly if one has exited |
| SchedulerPolls.EachVisitedOnce | src/arch/x86_64/task/schedule.c:89-118 | in every run of all CPUs, senders, receivers and interrupts from start-up: a walk visits each waiter exactly once, those that stayed are the list, in order, and every visit was right in this sense |
| SchedulerPollsEnd.NextMinded | src/arch/x86_64/task/schedule.c:98-115 | in that system no task is checked twice at a time: a check under way belongs to one CPU, whose walk has come to that waiter |
| SchedulerPollsEnd.VisitEnds | src/arch/x86_64/task/schedule.c:98-115 | the CPU's own steps finish every visit, a check after at most five reads, and the walk goes on to the next waiter |
| SchedulerPollsEnd.PolledScheduleEnds | src/arch/x86_64/task/schedule.c:150-201 | in every run of that system a CPU inside schedule() can leave it by its own steps, with the answers the protocol really gives, and then a task runs |
| IpcChecks.LetsGoIsReady | src/arch/x86_64/syscall/ipc.c:182-223 | a receiver that is let go has what it waits for, and a sender that is let go has been acknowledged |
| IpcChecks.StepKeepsSure | src/arch/x86_64/syscall/ipc.c:182-223 | no step but the wake-up ends it: while a check begun for a reason is under way, the reason stays and the check can only pass |
| IpcChecks.NoWakeUpMissed | src/arch/x86_64/syscall/ipc.c:182-223 | in every interleaving a check that begins when its task has a reason to go on has passed after at most five reads, and until the wake-up the reason stays |
| SchedulerEffects.StepEffect | src/arch/x86_64/task/schedule.c:89-228 | every step leaves each task its CPU and weight, and leaves alone the waiting lists, current tasks and walks of other CPUs; a task begins to wait only by blocking itself, for what it blocks for; only a CPU's own step changes the preempt count or the clock, of its running task; a new task is a child of the one that ran, and parents change only by adoption |
| SchedulerWalk.WokenAreReady | src/arch/x86_64/task/schedule.c:113-115 | those it takes off are ready and on the ready list |
| SchedulerWalk.PutAwayPlaces | src/arch/x86_64/task/schedule.c:163-184 | schedule() leaves the task that ran on the list of the status that it had: ready, at the end of the waiting list, at the end of its parent's list of exited children, or where it was |
| SchedulerWalk.ScheduledKeeps | src/arch/x86_64/task/schedule.c:150-201 | schedule() as a whole keeps the invariant, runs a task and leaves the right waiters |
| SchedulerCode.Kernel.FindPlace | src/arch/x86_64/task/schedule.c:212-222 | the scanning loop computes the place of insertion |
| SchedulerCode.Kernel.TaskListInsert | src/arch/x86_64/task/schedule.c:203-228 | the new state, for a task that is in the list already and for one that is not |
| SchedulerCode.Kernel.CheckWaitingList | src/arch/x86_64/task/schedule.c:89-118 | the loop performs the walk |
| SchedulerCode.Kernel.GetNextTask | src/arch/x86_64/task/schedule.c:125-144 | the head of the list is taken, or the idle task when it is empty |
| SchedulerCode.Kernel.LeaveCpu | src/arch/x86_64/task/schedule.c:163-184 | the switch on the status |
| SchedulerCode.Kernel.Schedule | src/arch/x86_64/task/schedule.c:150-201 | for a task of any status: with a spinlock held nothing at all changes; otherwise the task goes to the list of its status, the walk and the choice of the next task follow, the invariant is kept and a task runs |
| SchedulerCode.Kernel.TaskBlock | src/arch/x86_64/task/schedule.c:230-239 | a task without a spinlock takes its new status, is left on that status's list, and some task runs |
| SchedulerCode.Kernel.TaskYield | src/arch/x86_64/task/schedule.c:265-271 | a running task without a spinlock becomes ready and some task runs; with one nothing changes |
| SchedulerCode.Kernel.GiveAwayChildren | src/arch/x86_64/task/task.c:123-132 | the loop over the task table gives every child a new parent and changes nothing else |
| SchedulerCode.Kernel.GiveAwayExited | src/arch/x86_64/task/task.c:134-143 | the loop empties the list of exited children, in order, onto those of the main tasks |
| SchedulerOrder.InsertPlace | src/arch/x86_64/task/schedule.c:212-223 | within a window, a task goes behind all that are not later and before all that are: first come among equals |
| SchedulerOrder.RunOrdered | src/arch/x86_64/task/schedule.c:203-228 | over every run within a window all ready lists stay sorted |
| SchedulerOrder.PickedIsLeast | src/arch/x86_64/task/schedule.c:125-144 | the task picked from a nonempty list has the least virtual run time |
| SchedulerOrder.OrderIffWindow | src/arch/x86_64/task/schedule.c:216 | the wrapping comparison is asymmetric, total and transitive on a set of times if and only if they all lie in one window narrower than 2^63 |
| SchedulerOrder.NoOrderWithoutWindow | src/arch/x86_64/task/schedule.c:216 | three times in no window, on which the comparison has a cycle |
| SchedulerTimes.LeastTimeRuns | src/arch/x86_64/task/schedule.c:35-71 | in every run of at most 2^35 steps whose ticks bring the times that task_update computes, the task picked has the least virtual run time of its list, with no premise on times |
| SchedulerTimes.StepTimes | src/arch/x86_64/task/schedule.c:64-71 | every step keeps all clocks consistent with the minimum of their CPU, which grows by at most 1024 a step |
| VrunTime.ClampRoundTrip | src/arch/x86_64/task/schedule.c:47-53 | after a clamp to v the rewritten run time maps back to between v - ceil(1024/weight) and v, and one tick more to at least v |
| VrunTime.TickExact | src/arch/x86_64/task/schedule.c:26-70 | without overflow a tick leaves the task at the later of its exact time and the minimum, which becomes the new minimum and never falls |
| VrunTime.TimesStayInWindow | src/arch/x86_64/task/schedule.c:26-70 | in every run of fewer than 2^35 events, with weights of the table or any other positive one below 2^17 for the idle task: no product of a tick overflows, the minimum never falls and no time exceeds it |
| VrunTime.TableWeighs | src/arch/x86_64/task/schedule.c:15-24 | every weight of the table is one of those that TimesStayInWindow allows |
| VrunTime.WeightSteps | src/arch/x86_64/task/schedule.c:15-24 | priority 0 weighs 1024, and each step of priority is worth between 20 and 28 percent more |
| VrunTime.TaskMan.UpdateVrunTime | src/arch/x86_64/task/schedule.c:35-56 | the new clock and the new minimum |
| VrunTime.TaskMan.TaskUpdate | src/arch/x86_64/task/schedule.c:64-71 | the effect of a tick |
| Semaphore.Semaphore.DownTest | src/sync/semaphore.c:28-34 | one pass of the loop takes one or joins the queue |
| Semaphore.Semaphore.Up | src/sync/semaphore.c:39-50 | the first waiter leaves the queue and the value is incremented in any case |
| Semaphore.ValueCounts | src/sync/semaphore.c:25-50 | in every run the value is the initial value plus ups minus downs, without underflow, and tasks are woken in the order in which they queued |
| Semaphore.NoLostWakeUp | src/sync/semaphore.c:25-50 | tasks stay queued beside a positive value only while woken tasks are still to test, and then the value is at most their number |
| Semaphore.Settles | src/sync/semaphore.c:25-50 | once every woken task has tested again, barging included, nobody is queued or nothing is left to take |
| List.List.ListIn | src/lib/list.c:19-28 | the node is inserted at its place and all links are right |
| List.List.Push | src/lib/list.c:30-34 | the node becomes the first |
| List.List.Append | src/lib/list.c:36-40 | the node becomes the last |
| List.List.Remove | src/lib/list.c:42-49 | the node is unlinked and all other links are right |
| List.List.Pop | src/lib/list.c:51-56 | the first node is returned and gone |
| List.List.Find | src/lib/list.c:58-72 | membership, by a loop that stops at the tail sentinel |
| List.List.Len | src/lib/list.c:91-101 | the number of nodes |
| List.List.Empty | src/lib/list.c:103-106 | whether there are none |
| TaskTable.TaskTable.TaskAlloc | src/arch/x86_64/task/task.c:83-100 | the first free slot gets its own index as pid; none is found exactly when the table is full |
| TaskTable.TaskTable.TaskFree | src/arch/x86_64/task/task.c:102-112 | one slot becomes free |
| TaskTable.TaskTable.PidToTask | src/arch/x86_64/task/task.c:44-51 | the slot of a live pid, and nothing for any other number |
| TaskTable.AllocThenFree | src/arch/x86_64/task/task.c:83-112 | a new task gets a pid that nobody had, every other pid still finds its task, and freeing it restores the table |
| TaskTable.TaskToPidRoundTrip | src/arch/x86_64/task/task.c:53-66 | the address of a slot leads back to its pid |
| Bitmap.BitMap.ScanTest | src/lib/bitmap.c:17-26 | the bit, or -1 past the end |
| Bitmap.MaskIsShift | src/lib/bitmap.c:78-98 | bit k of a byte is 1 shifted left k times |
| Bitmap.BitMap.SetBit | src/lib/bitmap.c:78-98 | exactly one bit changes |
| Bitmap.BitMap.Alloc | src/lib/bitmap.c:28-76 | for a positive count, success exactly when a run of matching bits exists, at its least start; which error is reported otherwise |
| PhysPages.PageAllocator.AllocSub | src/arch/x86_64/mem/page.c:307-332 | granted exactly when a run of free pages exists; the least one is marked and the counter lowered |
| PhysPages.PageAllocator.Alloc | src/arch/x86_64/mem/page.c:286-305 | the same behind the test of the counter |
| PhysPages.PageAllocator.Free | src/arch/x86_64/mem/page.c:334-349 | the run is marked free and the counter raised |
| PhysPages.CountFill | src/arch/x86_64/mem/page.c:307-349 | marking a run changes the number of free pages by its length |
| PhysPages.LiveAllocationsNeverOverlap | src/arch/x86_64/mem/page.c:307-349 | over every history live allocations do not overlap, and free_pages less the number of free pages is constant |
| Blocks.BlockRoundTrip | src/mem/allocator.c:65-82 | block2cache and block_index undo cache2block |
| Blocks.BlocksApart | src/mem/allocator.c:65-69 | different blocks, of one page or two, do not overlap |
| Blocks.BlockInside | src/mem/allocator.c:65-69 | a block lies behind the header and inside its page |
| Blocks.MaskTestsAlignment | src/mem/allocator.c:110-113 | for a power of two the mask test is divisibility |
| Allocator.FirstMeeting | src/mem/allocator.c:94-119 | the first block that passes the tests |
| AllocatorSafety.CountBounds | src/mem/allocator.c:191-193 | cnt never exceeds the number of blocks and is less while one is live |
| AllocatorSafety.KmallocedKeeps | src/mem/allocator.c:131-199 | kmalloc keeps the heap's invariant and hands out a block that was not live |
| AllocatorSafety.KmallocSucceeds | src/mem/allocator.c:84-199 | with alignment up to the block size and a boundary that is zero or a multiple of it, kmalloc fails exactly above 256 KiB, without a page, or for a request of size zero with a boundary where the alignment is 0 or every free block starts at the boundary (for a new page: where the boundary is 64); the result is aligned to the block size |
| AllocatorSafety.KmallocHonours | src/mem/allocator.c:84-199 | for every size, every boundary and every alignment that is a power of two, above the block size too: the block is large enough, lies at a multiple of the alignment and in one chunk of the boundary |
| AllocatorSafety.KmallocFindsFirst | src/mem/allocator.c:84-128 | for alignments from the size up: nothing is found exactly when no free block of the group suits, and otherwise the first that does is taken |
| AllocatorSafety.ZeroSizeMeets | src/mem/allocator.c:109-120 | with size zero and a boundary a block passes the tests exactly when the alignment is not 0 and the block does not start at the boundary |
| AllocatorSafety.ZeroSizeSearch | src/mem/allocator.c:84-128 | such a search finds nothing exactly when the alignment is 0 or every block of the list starts at the boundary |
| AllocatorSafety.ZeroSizeExamples | src/mem/allocator.c:131-199 | the first call after start-up, with size zero, fails for boundary 64 and for alignment 0, and succeeds for boundary 128 with alignment 64 |
| AllocatorSafety.FreedKeeps | src/mem/allocator.c:201-239 | kfree keeps the invariant; the page goes back exactly when its last live block is freed, with none of its blocks left on a list |
| AllocatorSafety.BlocksDisjoint | src/mem/allocator.c:131-239 | a live block overlaps no other live or free block and lies in its page |
| AllocatorSafety.HeapStaysSound | src/mem/allocator.c:131-239 | over every history: live blocks disjoint and inside their pages, total_free the list length, cnt the page's blocks on it, and all of them exactly when none is live |
| KernelHeap.KernelHeap.FindBlock | src/mem/allocator.c:84-128 | the search loop with its short cut |
| KernelHeap.KernelHeap.NewPage | src/mem/allocator.c:159-183 | a page is zeroed, but for what the list operations write into the blocks' first bytes, and cut into blocks; no byte outside it changes |
| KernelHeap.KernelHeap.Kmalloc | src/mem/allocator.c:131-199 | outcome and new state; the block is all zero, no byte of a live block changes, and the lock stays held exactly when no block fits |
| KernelHeap.KernelHeap.Kfree | src/mem/allocator.c:201-239 | new state; no byte of the remaining live blocks changes; a null pointer is ignored |
| KernelHeap.KernelHeap.DropPage | src/mem/allocator.c:223-236 | the loop unlinks every block of the page |
| PageTable.IndexIsPage | src/arch/x86_64/mem/page.c:371-396 | two addresses have equal indices exactly when they lie in the same 2 MiB page of the 48-bit space |
| PageTable.LeafSet | src/arch/x86_64/mem/page.c:431-434 | setting a leaf of a private directory changes one page |
| PageTable.NewPdpt | src/arch/x86_64/mem/page.c:409-417 | a new zeroed table below the root keeps the tree without sharing |
| PageTable.NewPdt | src/arch/x86_64/mem/page.c:421-429 | a new zeroed directory keeps the tree without sharing |
| PageTableRights.BitsAre | src/arch/x86_64/include/mem/page.h:12-26 | the positions of the present, write, user and 2 MiB bits of an entry |
| PageTableRights.LeafKeeps | src/arch/x86_64/mem/page.c:431-434 | whatever is put at a private leaf: no other page's rights change, and below open tables the page has the rights that the leaf grants |
| PageTableRights.EmptyIsOpen | src/arch/x86_64/task/proc.c:97-112 | the tables of a new process, whose user half is empty, are open |
| PageTableCode.PageTables.ToPhysicalAddress | src/arch/x86_64/mem/page.c:371-398 | the translation, or NULL at the first entry that is not present |
| PageTableCode.PageTables.PageMap | src/arch/x86_64/mem/page.c:400-436 | the map of pages to frames is updated at exactly one page, and the tables stay a tree; no other page's rights change, and with open tables the page is one of 2 MiB that user programs may read and write, and the tables stay open |
| PageTableCode.PageTables.PageUnmap | src/arch/x86_64/mem/page.c:438-459 | exactly one page leaves the map, and every other page keeps its rights |
| PageTableCode.OnePageTranslates | src/arch/x86_64/mem/page.c:371-436 | after mapping every offset of the page translates to the frame plus that offset, and every other address as before |
| PageTableFree.PageTables.FreePdpt | src/arch/x86_64/mem/page.c:508-522 | what one directory-pointer table releases, in order |
| PageTableFree.PageTables.FreePageTable | src/arch/x86_64/mem/page.c:524-537 | what tear-down releases, in order, without touching a freed table |
| PageTableFree.TablesFreedOnce | src/arch/x86_64/mem/page.c:490-537 | every table of the user half and the root are released exactly once, and no other |
| PageTableFree.UpperTablesKept | src/arch/x86_64/mem/page.c:528-535 | nothing reachable through entries 256 to 511 is released |
| PageTableFree.FramesFreedOnce | src/arch/x86_64/mem/page.c:490-506 | the frame of every mapped user page is released exactly once, and no other |
| Vmm.RangeTable.AddRange | src/mem/vmm.c:56-110 | the array after an addition, in all five cases |
| Vmm.RangeTable.RemoveRange | src/mem/vmm.c:113-183 | the array after a removal, in all six cases |
| Vmm.RangeTable.Alloc | src/mem/vmm.c:39-54 | the first block that fits is cut from below |
| VmmRanges.AddIsUnion | src/mem/vmm.c:56-110 | adding a disjoint range is set union and keeps the table sorted and coalesced; it is refused, unchanged, exactly when the table is full and the range touches no block |
| VmmRanges.AddOverlapping | src/mem/vmm.c:56-110 | adding an overlapping range breaks the form unless it is refused |
| VmmRanges.RemoveIsDifference | src/mem/vmm.c:113-183 | removing a contained range is set difference; when it is refused, and that the table then is unchanged |
| VmmCanonical.Canonical | src/mem/vmm.c:56-183 | tables of the same addresses are equal |
| VmmCanonical.AddThenRemove | src/mem/vmm.c:56-183 | an addition is undone exactly by the removal of the same range |
| VmmCanonical.RemoveThenAdd | src/mem/vmm.c:56-183 | a removal is undone exactly by the addition of the same range |
| VmmCanonical.AllocTakesFirstFit | src/mem/vmm.c:39-54 | the range allocated is the lowest that fits, and leaves by set difference |
| VmmCanonical.RemovesRightUnless | src/mem/vmm.c:113-183 | for all ranges, the exact condition under which removal does what it should |
| VmmCanonical.WrappedRemovalExample | src/mem/vmm.c:113-183 | the removal of the topmost page from a table without it succeeds and leaves two blocks that overlap |
| VmmCanonical.EmptyRemovalExample | src/mem/vmm.c:113-183 | the removal of an empty range inside a block splits it into two that touch |
| KernMem.AddressSpace.AllocatePage | src/kernel/service/kern_mem.c:19-42 | the reply and both tables, rollback included |
| KernMem.AddressSpace.FreePage | src/kernel/service/kern_mem.c:44-63 | both tables afterwards |
| KernMem.AllocationKeepsPartition | src/kernel/service/kern_mem.c:28-41 | free and used tables stay a partition into aligned pages, the lowest free page moves, and the rollback restores both exactly |
| KernMem.FreeingAnyAddress | src/kernel/service/kern_mem.c:44-63 | for every 64-bit address, whether aligned, in use, wrapping or not: freeing keeps the partition if and only if the page is in use and both tables have room, or both edits are refused by their guards, in which case nothing changes |
| KernMemRuns.TablesAlwaysPartition | src/kernel/service/kern_mem.c:19-63 | over every run of requests with any addresses: the tables partition the user range throughout if and only if each freed page moves back or leaves both tables alone, and then their block counts differ by at most one |
| KernMemRuns.NoRoomExample | src/arch/x86_64/task/proc.c:114-125 | for every capacity that the user range can fill, with NoRoomForProcesses for the 1024 of every process: 2n + 1 allocations and n - 1 permitted frees lead to a page in use that cannot go back, and freeing it changes nothing |
| KernMemRuns.NoRoomForProcesses | src/arch/x86_64/task/proc.c:117 | such a run exists for tables of 1024 blocks |
| KernMemRuns.NotInUseBreaks | src/kernel/service/kern_mem.c:52-56 | with room in the free table, freeing an address that wraps or is not in use always destroys the partition |
| KernMemRuns.FreedTwiceExample | src/kernel/service/kern_mem.c:52-56 | the first page, allocated and freed twice, is such an address |
| KernPages.Process.FreePage | src/kernel/service/kern_mem.c:44-63 | for every mapped page, in use or not: it leaves the page tables, its frame is free again, no other page or frame changes, free frames plus mapped pages stay the same in number, and the range tables stay a partition exactly under the condition of KernMem.FreeingAnyAddress |
| KernPages.FrameGoesBack | src/kernel/service/kern_mem.c:50-59 | the frame released is mapped nowhere else, and every frame still mapped stays marked in use |
| KernPages.FirstMapped | src/kernel/service/kern_mem.c:19-63 | a process with a page in use and mapped that can be given back |
| EdgeSort.InsSort | src/include/stb_truetype.h:4516-4533 | the insertion pass sorts and permutes |
| EdgeSort.MedianIsBetween | src/include/stb_truetype.h:4543-4565 | after the choice of the pivot both scans have a sentinel |
| EdgeSort.Partition | src/include/stb_truetype.h:4566-4589 | the unguarded scans stay inside the array and leave a cut, with at most one element unplaced |
| EdgeSort.QuickSort | src/include/stb_truetype.h:4535-4603 | a permutation, sorted but for segments of at most twelve and unplaced elements; 12 * 2^d elements need at most d levels of recursion |
| EdgeSort.Depth | src/include/stb_truetype.h:4590-4601 | the levels of recursion are logarithmic |
| EdgeSort.SortEdges | src/include/stb_truetype.h:4605-4609 | the result is sorted and a permutation |
| XhciRing.StepCounts | src/arch/x86_64/device/usb/xhci/xhci.c:618-625 | stepping index and cycle as the code does counts entries |
| XhciRing.CycleTellsNew | src/arch/x86_64/device/usb/xhci/xhci.c:581-586 | with at most one lap outstanding the cycle test succeeds exactly when an entry waits, and it is the oldest |
| XhciRing.EventRing.ProcessEvents | src/arch/x86_64/device/usb/xhci/xhci.c:573-634 | every event, arrivals during the loop included, is handled once and in order, going where EventGoesTo says; the loop stops exactly when none is left |
| XhciRing.EventGoesTo | src/arch/x86_64/device/usb/xhci/xhci.c:590-618 | by the number in the type field: 32 goes to the transfer queue and 33 to the command queue as it is; 34 with port number id adds the connection event of port id - 1 if that port's register shows a change, and writes that register; others go nowhere |
| XhciRing.PortIs | src/arch/x86_64/device/usb/xhci/xhci.c:602 | the port counted from 0 is the number in bits 24 to 31 less one; number 0 wraps around |
| XhciRing.RegisterSays | src/arch/x86_64/include/device/usb/xhci.h:267-283 | the change is bit 17 and the connection bit 0 of the register |
| XhciRing.AcknowledgedIs | src/arch/x86_64/device/usb/xhci/xhci.c:611-616 | what is written back keeps the change bits as read, clears bits 1 and 4 and sets the link state to 1 |
| XhciRing.EventRank | src/arch/x86_64/device/usb/xhci/xhci.c:590-610 | every event of a log stands in its queue at its rank |
| XhciRing.TransferRing.TrbQueue | src/arch/x86_64/device/usb/xhci/xhci.c:636-650 | the new ring, with the Link entry at its end |
| XhciRing.StampCycle | src/arch/x86_64/device/usb/xhci/xhci.c:638 | the cycle bit comes out right exactly when the caller left it clear or it has to be set |
| XhciRing.LookExact | src/arch/x86_64/device/usb/xhci/xhci.c:636-650 | what one look of the controller does, at a data slot and in front of the Link |
| XhciRing.ReaderFollowsInOrder | src/arch/x86_64/device/usb/xhci/xhci.c:636-650 | in every interleaving the controller has taken the first entries queued, in order, across every wrap |
| XhciRing.ReaderDrains | src/arch/x86_64/device/usb/xhci/xhci.c:636-650 | with an entry waiting two looks suffice to take it; with none waiting nothing is taken |
| XhciRing.FullLapHidesEverything | src/arch/x86_64/device/usb/xhci/xhci.c:640-648 | with a full lap outstanding the controller is stuck exactly when it rests in front of the Link |
| XhciRing.FullLapExample | src/arch/x86_64/device/usb/xhci/xhci.c:636-650 | for every ring size above one, XHCI_RING_ITEMS among them, and all entries: a ring filled, emptied and filled again but for one slot, after which the next entry is never seen |
| NumberPrinter.NumberToString | src/lib/stdio.c:33-113 | the text written, for every number, base, width, precision and flag; 0 for an unsupported base; a store past the digit buffer exactly for base 2 from 2^50 on |
| NumberPrinter.DigitsFit | src/lib/stdio.c:66-78 | 50 places hold the digits of a word if and only if the base is 3 or more or the word is below 2^50 |
| NumberPrinter.PrintedReadsBack | src/lib/stdio.c:33-113 | what is printed reads back as the number |
| NumberPrinter.LengthIsWidth | src/lib/stdio.c:79-112 | the length is the larger of the width and the length without padding |
| NumberPrinter.TextCase | src/lib/stdio.c:44-48 | letters are small exactly under the flag for small ones |
| NumberPrinter.WidthAdds | src/lib/stdio.c:83-112 | more width adds blanks behind when left-justified, blanks in front by default, and when zero-filled the zeros that more precision would add |
| NumberPrinter.Beginning | src/lib/stdio.c:51-105 | the text begins with the sign that number and flags ask for, and then with the prefix of the base |

## Left out

- Hardware and firmware: ports, MSRs, APIC, HPET, PCI, PS/2, SMP start-up, xHCI registers and USB enumeration, framebuffer and serial output.
- Assembly: the context switch, interrupt entry, and the bodies of atomics and spinlocks, which are taken as atomic steps and mutual exclusion.
- The UEFI loader, ELF loading and the firmware memory map; the physical allocator starts from an arbitrary bit map.
- Deadlock freedom of messages: two tasks that send to each other block for ever, and the documented status for that is never returned.
- Status codes of the message calls: docs/system/syscall.md gives 0x80000000 and 0xc000000x, the header gives 0 to 5; the model follows the code and keeps only which branch is taken.
- `task_exit` with messages pending: the message model lets a task go only when no message involves it, as the comment at src/arch/x86_64/task/task.c:260 leaves open.
- `inform_intr`'s translation of service numbers to pids, and interrupts between the read and the clearing of `has_intr_msg`, which merge with the one already seen.
- Task creation in between: allocating a slot and inserting the task are one step, and a CPU's start-up is one step.
- Reaping an exited child while its own CPU has not yet switched away from its stack: the model frees the slot and makes no claim about that stack.
- The methods of `SchedulerCode` and `IpcCode` run without interference from other CPUs; interleaving is covered by the step systems only.
- Ready-list order when virtual run times do not fit one window; the idle task's weight is an arbitrary positive constant below 2^17, since its priority lies one past the weight table.
- `task_ipc_check` for a task that waits for a child, which changes nothing and whose answer the walk ignores; waking a task is one step of scheduler and protocol together.
- Semaphores shared between CPUs, and their holder fields, which nothing uses.
- `kern_waitpid` for one pid, the `childs` counter, `proc_exit`, `do_page_fault` and `kern_read_task_mem`.
- Heap memory is modelled byte by byte, but a page's header and the list links are values beside it; the bytes they occupy may change arbitrarily.
- `PageTableCode.PageTables.PageMap`: claims nothing for tables shared between roots, that is for addresses above the private half, and takes the success of `kmalloc` as given, as the source's assertion does.
- `set_page_flags` and the entry-lookup helpers, which would only add easy members.
- `vmm_find`, which accepts the address one past a block and has no caller in the parts modelled.
- `KernPages.Process.FreePage`: takes a page that is mapped and starts at its address, since the source asserts that the frame is not null and aligned; one task and its private half of the page tables; what maps pages in the first place, the page fault handler and the loader, is not part of this model.
- `EdgeSort.SortEdges`: keys are real numbers, so that a key that is not a number is excluded.
- The pointer in the Link TRB, which the source never writes; the controller is taken to continue at index 0. The values read from the port registers are a parameter; the capacity of the software queues is left out.
- `NumberPrinter.NumberToString`: says when the source stores past its digit buffer (`NumberPrinter.DigitsFit`), but not what that store does, and treats `int` widths as unbounded.
- The rest of stb_truetype.h, math.c and `float_to_string` (floating point); string.c, fifo.c, softirq.c, config.c, symbols.c, the RAM file system and the build tools.
