# Verification of the GyrOS kernel

GyrOS is a small preemptive real-time kernel. Its state is a set of intrusive circular lists:
the running list, the timeout list, the timer list, and one wait list in every synchronization
object. Every operation is one or a few regions with interrupts disabled, in which tasks move
between these lists. This project models those regions, and proves what they keep.

It has two layers.

- *The linked structure.* `List.dfy` has the list nodes, with `next` and `prev` written in place,
  and proves that insertion and removal keep all nodes in disjoint well-formed rings, although
  removal does not say which list a node is on. `Kernel.dfy` has the scheduler with its two lists
  of nodes inside every task; `Timer.dfy`, `AlarmClock.dfy`, `Mempool.dfy`, `Smq.dfy`, `Mq.dfy`,
  `MutexObject.dfy` and `SyncObjects.dfy` have the objects. They are classes whose methods follow
  the loops of the source. Each method is proved to compute a function on values: which task is on
  which list, in which order, with which priority and deadline (`Sched.dfy`).
- *Runs.* `Mutex.dfy`, `RwLock.dfy`, `Tokens.dfy` (semaphores and the two message queues),
  `EventGroup.dfy`, `AlarmClock.dfy`, `DynTick.dfy` and `Mempool.dfy` put the same functions
  together into state machines, with a program point for every task where it is needed, and prove
  invariants over all runs. A blocking call is split where the source reschedules: the second part
  runs whenever the task is current again, and anything may happen in between. `Bystander.dfy`
  says what the rest of the system can do meanwhile: create and suspend tasks, yield, block and
  sleep elsewhere, be woken by other objects, change priorities, set other alarm clocks, and tick.
  `Order.dfy` has the order of the lists and the rotation of `gyros_yield`.

For every operation a law says what it does in terms of the states before and after it only: who is
on which list and behind whom, who has which deadline, who runs, and what the object holds.
`Effects.dfy` has the vocabulary of these laws. So what the methods compute is pinned down without
naming the functions that they compute.

Deadlines are unbounded integers in the values and 64-bit clock values in the objects, and the
signed comparisons of the source are proved to agree with the unbounded order as long as what is
compared differs by less than half the range. The clock is a parameter. `hide` at the start of a
proof only keeps definitions out of sight that it does not need.

## What the proofs turned up

- `gyros_mempool_init` accepts block sizes from 2^32 - 7 to 2^32 - 4. Their size with the header
  wraps to 0, so that carving takes nothing and two allocations in a row return the same block.
  `MempoolProtocol.DistinctExactly` proves that this happens for these sizes and for no others.
- In `src/smq.c` senders and receivers share one wait list, a receive wakes nobody, and a send
  wakes whoever is first. If that is a sender, a receiver behind it can wait although there is a
  message and nobody has been woken for it. `SmqProgress.ServedExactly` proves that this is ruled
  out exactly if no send may block (or the queue has no slots), and `SmqProgress.ReceiverStranded`
  is a run from the empty queue at the end of which only the idle task can run. Semaphores and
  `src/mq.c` have no such puts, and lose no wakeup: `TokenProtocol.NoLostWakeup`.
- The comments on the wake-all loops of `src/cond.c`, `src/event_group.c` and `src/rwlock.c` say
  that waking from the tail preserves the order of tasks with equal priority. Each task is inserted
  behind its equals, so the loops reverse it. `Order.OrderKeptExactly` proves that the order of the
  waiters is kept exactly if no two of them share a priority; `Order.OrderLost` is an input.
- An unlock drops its task to the base priority even if the task holds another mutex.
  `MutexProtocol.NestedUnlock` says exactly which waiters of that mutex it stops outranking, and
  `MutexProtocol.NestedInversion` is a run that ends in a priority inversion.
- `gyros_task_resume` does not end a pending timeout. `Bystander.ResumeExactly` proves that it leaves
  a running task on the timeout list exactly if the task has one, and `Bystander.ResumeStrands` is a
  run to that. If such a task sets a timeout again, its linked node is inserted a second time:
  `Lists.InsertExactly` proves that an insertion keeps the nodes in well-formed rings exactly if the
  new node is on no list, and `KernelRuns.TimeoutSplice` that for a task this means no pending timeout.
- `gyros_task_set_priority` overwrites an inherited priority. `MutexProtocol.HolderSet` proves that
  for a task that holds a mutex this keeps the mutex protocol exactly if the new priority is not below
  that of a waiter, and `MutexProtocol.SetInversion` is a run that ends in a priority inversion.

## Model

| member | source | states |
|---|---|---|
| `Lists.Links.Init` | include/gyros/private/list.h:42 | a node that is initialised forms a ring of its own, and all nodes stay in disjoint well-formed rings |
| `Lists.Links.Empty` | include/gyros/private/list.h:49-53 | a list is empty exactly when its ring is the head alone |
| `Lists.Links.InsertBefore` | include/gyros/private/list.h:55-65 | a self-linked node is spliced into the ring in front of the given node (at the end when that is the head); all other rings are as before, and all nodes stay in disjoint rings |
| `Lists.Links.Remove` | include/gyros/private/list.h:67-75 | without naming its list, the node leaves exactly the ring it is on and forms one of its own; a self-linked node is left as it is |
| `Lists.AddedPartition` | include/gyros/private/list.h:42 | a node from outside that is initialised leaves all rings as they were |
| `Lists.SplicedPartition` | include/gyros/private/list.h:55-65 | the four pointer writes of an insertion keep every node on exactly one well-formed ring |
| `Lists.InsertExactly` | include/gyros/private/list.h:55-65 | the four pointer writes of an insertion leave well-formed rings exactly if the inserted node was on no list |
| `Lists.RemovedPartition` | include/gyros/private/list.h:67-75 | so do the four pointer writes of a removal |
| `Time.CompareExact` | include/gyros/time.h:178-182 | the signed difference of two clock values is their true distance if and only if that fits half the range |
| `Time.UsNeverShort` | include/gyros/time.h:75-91 | for every tick rate, a number of microseconds is converted to at least as much time in ticks |
| `Time.UsExactly` | include/gyros/time.h:75-91 | the conversion is exact for every number of microseconds exactly if the rate is a multiple of 10^6 |
| `Time.MsNeverShort` | include/gyros/time.h:95-102 | the same for milliseconds, while the product fits the signed type |
| `Time.MsExactly` | include/gyros/time.h:95-102 | the same for milliseconds and a multiple of 1000 |
| `Time.RoundTripUs` | include/gyros/time.h:113-132 | converting microseconds to ticks and back never gives less, in every preprocessor branch |
| `Time.RoundTripMs` | include/gyros/time.h:136-149 | the same for milliseconds |
| `Time.RoundTripS` | include/gyros/time.h:106-109 | seconds come back exactly |
| `Sched.Pos` | src/task.c:63-67 | the scan stops at the first place, from where it starts, whose task has a lower priority |
| `Sched.TimePos` | src/timeout.c:75-79 | the scan stops at the first place whose deadline is later |
| `Sched.EnqueueSorted` | src/task.c:58-70 | inserting a task keeps a list sorted by priority and without duplicates, and removing it again gives the list back |
| `Sched.HeadIsTop` | src/task.c:141-145 | the first task of a list has the highest priority on it |
| `Sched.WakeAllEffect` | src/event_group.c:155-156 | the wake-all loop puts exactly the tasks of the list on the running list, takes them off the timeout list, and leaves every other task where it is |
| `Sched.ExpireEffect` | src/timeout.c:93-103 | the tick wakes exactly the tasks whose deadline has come, marks them timed out and takes them off the timeout list; nothing else happens to any task |
| `Sched.TickExact` | src/timeout.c:87-106 | so does the whole task part of the tick, with its reschedule |
| `Kernels.Kernel.constructor` | src/task.c:42-52 | before the start all lists are empty and nobody is current |
| `Kernels.Kernel.StartKernel` | src/task.c:147-162 | the idle task joins the tasks created so far, and the first task on the running list becomes current |
| `Kernels.Kernel.NewList` | include/gyros/private/list.h:42 | an object's wait list becomes known, empty; all else is as before |
| `Kernels.Kernel.TaskCreate` | src/task.c:190-225 | a new task joins the running list behind its equals; once started, the head of that list becomes current |
| `Kernels.Kernel.SuspendTask` | src/suspend.c:36-52 | the task leaves both lists, and if it was current the processor is given away |
| `Kernels.Kernel.ResumeTask` | src/suspend.c:54-67 | the task joins the running list, and the head of that list becomes current |
| `Effects.CreateEffect` | src/task.c:190-225 | a created task is on the running list behind its equals, all others keep their places and their order, and once started the first running task is current |
| `Effects.StartEffect` | src/task.c:147-162 | the same of the idle task at the start |
| `Effects.SuspendEffect` | src/suspend.c:36-52 | a suspended task is on no list and has no timeout; the others keep their places and their order; another task runs only if it was current |
| `Effects.ResumeEffect` | src/suspend.c:54-67 | a resumed task is on the running list behind its equals, timeouts are as before, and the first running task is current |
| `Kernels.Kernel.ScanPriority` | src/task.c:63-67 | the walk along the list ends at the node of that first place, or at the head |
| `Kernels.Kernel.AddTaskToList` | src/task.c:58-70 | the scan and the splice put the task behind those with at least its priority, and `main_list` names the list |
| `Kernels.Kernel.TaskMove` | src/task.c:112-117 | the linked lists change exactly as removal and stable insertion by priority say, and stay well-formed |
| `Kernels.Kernel.TaskSuspend` | src/task.c:105-110 | the task leaves the list it is on and no other list changes |
| `Kernels.Kernel.TaskWake` | src/task.c:119-130 | the task leaves the timeout list and the list it is on, and joins the running list |
| `Kernels.Kernel.SetPriority` | src/task.c:132-138 | the task is queued again at its new priority on whatever list it is on |
| `Kernels.Kernel.CondReschedule` | src/task.c:140-145 | the first running task becomes current |
| `Kernels.Kernel.YieldCurrent` | src/yield.c:34-42 | current goes behind its equals, and the first running task becomes current |
| `Kernels.Kernel.TaskSetPriority` | src/priority.c:45-62 | base priority and priority change, and the task is queued again only if its priority differs |
| `Kernels.Kernel.ScanTimeout` | src/timeout.c:74-79 | the walk over wrapped deadlines ends at the node of the first later one, or at the head |
| `Kernels.Kernel.TaskSetTimeout` | src/timeout.c:70-82 | a deadline that has passed changes nothing; another one is linked in order, behind equal deadlines, by comparisons of wrapped clock values |
| `Kernels.Kernel.ExpireTasks` | src/timeout.c:93-103 | the loop over wrapped deadlines wakes the tasks that are due, one by one from the head |
| `Kernels.Kernel.TickTasks` | src/timeout.c:87-106 | the loop, and a reschedule exactly if somebody was woken |
| `Kernels.Kernel.WakeAllTasks` | src/cond.c:143-144 | the loop from the tail empties the list and computes the wake-all function |
| `Kernels.Kernel.OnItsRing` | src/task.c:58-70 | the main node of a task is on the ring of the list that `main_list` names and on no other, and is self-linked when it is NULL |
| `KernelRuns.NeverSplicedTwice` | src/timeout.c:75-80 | after the start and any run of kernel operations, the timeout node of a running task points to itself, so a timeout never splices a node that is linked already |
| `Order.MoveOrder` | src/task.c:112-117 | on every list the other tasks keep their order, and the moved task is behind all of at least its priority and in front of all of lower priority |
| `Order.WakeOrder` | src/task.c:119-130 | the same for a wakeup, which only removes the task from the timeout list |
| `Order.SetPrioOrder` | src/mutex.c:101-102 | the same for a change of priority, by inheritance or otherwise, on the list that the task is on |
| `Order.ChangeOrder` | src/priority.c:45-62 | both priorities are set, the task changes its place only if its priority differs, and then goes behind its new equals; the others keep their order and current is the first running task |
| `Order.CurrentIsFirst` | src/task.c:140-145 | once rescheduled, current is the first of the running tasks with the highest priority |
| `Order.ArmOrder` | src/timeout.c:75-82 | a timeout is inserted behind those that are not later and in front of the later ones, which keep their order |
| `Order.ExpiryOrder` | src/timeout.c:93-103 | the tick wakes the due prefix of the timeout list in order, and leaves the rest of the list as it is |
| `Order.RunningKept` | src/rwlock.c:339-342 | waking everybody leaves the tasks that run already in their order |
| `Order.WakeAllOrder` | src/event_group.c:153-156 | of two waiters, the one that was in front stays there exactly if its priority is higher |
| `Order.OrderKeptExactly` | src/cond.c:141-144 | the waiters come out in the order in which they waited exactly if no two share a priority |
| `Order.OrderLost` | src/cond.c:141-144 | two waiters of priority 1 come out in the other order |
| `Order.RoundRobin` | src/yield.c:34-42 | if k tasks share the top priority, i yields rotate them by i places and change nothing else |
| `Order.RoundRobinOnce` | src/yield.c:34-42 | each of the k tasks is current exactly once in k yields, after which the whole state is as before |
| `Bystander.KernelKeeps` | src/timeout.c:87-106 | whatever is created, suspended, woken, yields, blocks, sleeps, changes priority or alarm, or ticks, current stays the first running task, no running task is on the timeout list, and tasks on another object's list move only by a timeout |
| `Bystander.RunScheduled` | src/task.c:140-145 | so it is after every run of these operations |
| `Bystander.ResumeExactly` | src/suspend.c:54-67 | resuming a task keeps that too exactly if the task has no pending timeout |
| `Bystander.ResumeIsWake` | src/suspend.c:54-67 | for a task without a pending timeout, resuming it is waking it |
| `Bystander.ResumeStrands` | src/suspend.c:54-67 | a run: a task that sleeps until a deadline is resumed before it, and is current and on the timeout list |
| `Bystander.PrioritiesAfter` | src/priority.c:45-62 | of all these operations only the creation of a task and a change of priority set a priority, and they set the base priority to the same |
| `KernelRuns.TimeoutSplice` | src/timeout.c:74-80 | putting the timeout node of a task in front of any node leaves well-formed rings exactly if the task has no pending timeout |
| `Bystander.KernelGives` | src/sleep.c:46-53 | what each of these operations does: who goes to which list and behind whom, who has which deadline, and who runs |
| `MutexObjects.Mutex.TryLock` | src/mutex.c:46-72 | succeeds exactly if there is no owner, and then current is the owner |
| `MutexObjects.Mutex.LockOnce` | src/mutex.c:92-111 | takes a free mutex; otherwise current is queued, an owner of lower priority inherits current's, and the processor is given away |
| `MutexObjects.Mutex.Unlock` | src/mutex.c:128-142 | the owner drops to its base priority, the first waiter is woken, and there is no owner |
| `MutexObjects.Cond.Wait` | src/cond.c:58-65 | the mutex is released and current joins the condition's list in one region |
| `MutexObjects.Cond.WaitUntil` | src/cond.c:85-98 | the same with the deadline armed first; a deadline that has passed leaves the mutex locked and current where it is |
| `MutexObjects.Cond.SignalOne` | src/cond.c:105-124 | the first waiter, if any, is woken |
| `MutexObjects.Cond.SignalAll` | src/cond.c:126-148 | every waiter is woken |
| `MutexProtocol.LockGives` | src/mutex.c:92-111 | a free mutex is taken and nobody moves; otherwise current waits for it behind its equals, the owner has the higher of both priorities and is behind its new equals, all others keep their places and their order, and another task runs |
| `MutexProtocol.TryLockGives` | src/mutex.c:46-72 | a free mutex is taken; otherwise nothing happens |
| `MutexProtocol.UnlockGives` | src/mutex.c:128-142 | there is no owner; without waiters nothing else happens; otherwise the waiter of highest priority is woken, of several the first, and current is at its base priority |
| `MutexProtocol.CondWaitGives` | src/cond.c:85-98 | in one step there is no owner, the first waiter of the mutex is woken, and current, at its base priority, waits on the condition's list, with the deadline if there is one |
| `MutexProtocol.SignalGives` | src/cond.c:105-148 | a signal wakes the waiter of highest priority, of several the first, or all waiters, and nobody else moves |
| `MutexProtocol.NoPriorityInversion` | src/mutex.c:92-111 | over all runs, whatever the other tasks and objects do meanwhile: one holder, the one that `owner` names; its priority is exactly the highest of its base priority and those of its waiters; while it can run, nobody of lower priority than a waiter is current |
| `MutexProtocol.NoLostUnlock` | src/mutex.c:128-142 | over all runs: a free mutex with waiters has a woken contender that outranks all of them |
| `MutexProtocol.BoostEnds` | src/mutex.c:129-134 | over all runs: a task that holds no mutex has its base priority |
| `MutexProtocol.HolderSet` | src/priority.c:45-62 | giving a task that holds a mutex another priority keeps all of this exactly if no waiter of the mutex exceeds it |
| `MutexProtocol.SetInversion` | src/priority.c:45-62 | a run in which an owner that has inherited a priority is given its base priority, and a task of middle priority then runs while one of high priority waits |
| `MutexProtocol.NestedUnlock` | src/mutex.c:128-134 | of the waiters of another mutex that it holds, the unlocking task goes on outranking exactly those that do not exceed its base priority |
| `MutexProtocol.NestedInversion` | src/mutex.c:128-142 | a run in which a task that holds two mutexes unlocks one, and a task of middle priority then runs while one of high priority waits for the other |
| `SemObjects.Semaphore.constructor` | src/sem.c:38-54 | a counting semaphore starts at its value, a binary one at 0 with maximum 1 |
| `SemObjects.Semaphore.TryWait` | src/sem.c:56-81 | takes one from a positive value, fails otherwise |
| `SemObjects.Semaphore.WaitOnce` | src/sem.c:97-110 | takes one from a positive value, otherwise queues current |
| `SemObjects.Semaphore.WaitUntil` | src/sem.c:127-141 | takes one, fails at a deadline that has passed, or queues current with the deadline armed |
| `SemObjects.Semaphore.Signal` | src/sem.c:155-176 | below the maximum, the value goes up and the first waiter is woken; at the maximum nothing happens |
| `TokenProtocol.WaitGives` | src/sem.c:97-110 | a wait takes one and nobody moves, or current waits on the list behind its equals and another task runs |
| `TokenProtocol.WaitUntilGives` | src/sem.c:127-141 | a timed wait takes one, or gives up at a deadline that has come, or current waits on the list, with its deadline on the timeout list and not timed out, and another task runs |
| `TokenProtocol.WaitsOn` | src/sem.c:131-141 | a task in a timed wait is woken by the first tick at its deadline or later, and goes on waiting until then in every other step, but for a put that wakes it as the first waiter |
| `TokenProtocol.TryGives` | src/sem.c:56-81 | a try, and a timed wait that has resumed, take one if there is one, and nobody moves |
| `TokenProtocol.PutGives` | src/mq.c:47-68 | a signal or a send adds one and wakes the waiter of highest priority, of several the first; at the maximum nothing happens |
| `TokenProtocol.PutBlockingGives` | src/smq.c:67-96 | a send that may block and finds no room waits on the same list |
| `TokenProtocol.NoLostWakeup` | src/sem.c:99-108 | over all runs of waits, timed waits, stealing and signals: while somebody is queued, the value is at most the number of tasks that a signal has woken and that have not resumed; value plus acquisitions equals start plus accepted signals; the maximum is kept |
| `TokenProtocol.TakenOnce` | src/sem.c:129-148 | a step acquires or signals at most once, and the value changes by exactly that |
| `Fifos.Fifo` | src/mq.c:47-68 | in any order of sends and receives, what has been received followed by what is queued is what has been sent, and a limit is kept |
| `MqObjects.MessageList.Append` | src/mq.c:59 | a message is linked at the end of the queue |
| `MqObjects.MessageList.RemoveFirst` | src/mq.c:99-100 | the oldest message leaves the queue and is self-linked again |
| `MqObjects.Mq.Send` | src/mq.c:47-68 | the message is queued, and the first waiting receiver is woken |
| `MqObjects.Mq.ReceiveOnce` | src/mq.c:83-103 | gives the oldest message, or queues current, or fails in an interrupt |
| `MqObjects.Mq.ReceiveUntil` | src/mq.c:121-134 | the same with a deadline, up to the reschedule |
| `MqObjects.Mq.ReceiveResumed` | src/mq.c:135-146 | once resumed, gives the oldest message, if another task has not taken it |
| `SmqSpec.WritePosition` | src/smq.c:82-84 | the write position is the read position plus the number of messages, modulo the number of slots |
| `SmqSpec.SlotsOrdered` | src/smq.c:82 | the byte ranges of different slots do not overlap |
| `SmqSpec.Appended` | src/smq.c:82-85 | bytes copied into the slot at the write position append one message and leave the queued ones byte for byte |
| `SmqSpec.Taken` | src/smq.c:127-130 | moving the read position on takes off the oldest message and no other |
| `SmqObjects.Copy` | src/smq.c:82 | the bytes are copied and no others are written |
| `SmqObjects.Smq.Put` | src/smq.c:82-85 | the message is appended to the queued messages |
| `SmqObjects.Smq.Take` | src/smq.c:127-130 | the oldest message is copied out byte for byte and leaves the queue |
| `SmqObjects.Smq.Send` | src/smq.c:67-96 | appends if there is room and wakes the first task on the list; a full queue makes the caller wait, or fail |
| `SmqObjects.Smq.Receive` | src/smq.c:113-135 | gives the oldest message, or queues current, or fails in an interrupt |
| `SmqObjects.Smq.ReceiveUntil` | src/smq.c:156-183 | the same with a deadline |
| `SmqObjects.Smq.ReceiveResumed` | src/smq.c:168-183 | once resumed, gives the oldest message, if there is one |
| `SmqProgress.ServedExactly` | src/smq.c:67-96 | over all runs: while a receiver waits, there are no more messages than receivers woken for one, exactly if no send may block or there is no slot |
| `SmqProgress.Overtaken` | src/smq.c:67-96 | for every number of slots, a run from the empty queue in which a sender is woken and a receiver waits with a message there |
| `SmqProgress.ReceiverStranded` | src/smq.c:67-96 | a run from the empty queue, with one slot, to a state in which a receiver waits, there is a message, and only the idle task can run |
| `EventWords.MatchMeans` | src/event_group.c:38-43 | the word test means: all the flags asked for are set, or any of them |
| `EventWords.GivenMeans` | src/event_group.c:82 | the word that a get hands out has exactly the flags that are set and asked for |
| `EventWords.LeftMeans` | src/event_group.c:83 | the word that a get leaves has exactly the flags that were not asked for |
| `EventWords.AnyNewMeans` | src/event_group.c:150 | the test for new bits means that some flag is not set yet |
| `EventWords.WithMeans` | src/event_group.c:152 | the word after a set has the old flags and the new ones |
| `EventWords.WithoutMeans` | src/event_group.c:176 | the word after a clear has exactly the flags that were not cleared |
| `EventObjects.EventGroup.GetOnce` | src/event_group.c:72-85 | a request that is met is given its flags, which are cleared; otherwise current is queued |
| `EventObjects.EventGroup.GetUntil` | src/event_group.c:108-120 | the same with a deadline, up to the reschedule |
| `EventObjects.EventGroup.GetResumed` | src/event_group.c:121-133 | once resumed, the request is checked once more |
| `EventObjects.EventGroup.Set` | src/event_group.c:136-160 | flags are added, and everybody is woken exactly if one is new |
| `EventObjects.EventGroup.Clear` | src/event_group.c:162-178 | flags are taken away and nobody moves |
| `EventProtocol.GetAnswers` | src/event_group.c:72-133 | a get of any kind whose request is met, at first or once resumed, is given exactly the flags that it asks for and that are set; these are cleared, the others stay, and nobody moves |
| `EventProtocol.GetWaits` | src/event_group.c:108-133 | one whose request is not met waits on the list, with its deadline if there is one, and another task runs; it is given nothing if the deadline has come or it has resumed from a timed wait |
| `EventProtocol.SetAdds` | src/event_group.c:136-160 | the flags are added, and if one of them is new everybody is woken and nobody else moves |
| `EventProtocol.ClearDrops` | src/event_group.c:162-178 | the flags are taken away and nobody moves |
| `EventProtocol.NoStrandedWaiter` | src/event_group.c:72-83 | over all runs, no task is queued whose request is met by the flags as they are |
| `EventProtocol.BitConsumedOnce` | src/event_group.c:81-83 | over all runs, each time a flag is raised it is handed out at most once: raised equals consumed plus cleared plus still set |
| `EventProtocol.GetGivesMatch` | src/event_group.c:81-83 | what a get hands out meets its request, and with what is left makes up the flags |
| `EventProtocol.MatchMonotone` | src/event_group.c:38-43 | a request that is met stays met when flags are added |
| `RwLockObjects.RwLock.RdLockOnce` | src/rwlock.c:66-80 | a reader gets in if there is no writer, active or queued; otherwise it is queued |
| `RwLockObjects.RwLock.TryRdLock` | src/rwlock.c:83-117 | the same, failing instead of waiting |
| `RwLockObjects.RwLock.RdLockUntil` | src/rwlock.c:139-151 | the same with a deadline, up to the reschedule |
| `RwLockObjects.RwLock.RdResumed` | src/rwlock.c:153-165 | once resumed, gives up if the wait has timed out, and otherwise tries again |
| `RwLockObjects.RwLock.WrLockOnce` | src/rwlock.c:184-199 | a writer gets in if there are no readers and no other writer; otherwise it is queued |
| `RwLockObjects.RwLock.TryWrLock` | src/rwlock.c:202-236 | the same, failing instead of waiting |
| `RwLockObjects.RwLock.WrLockUntil` | src/rwlock.c:257-271 | the same with a deadline, up to the reschedule |
| `RwLockObjects.RwLock.WrResumed` | src/rwlock.c:273-285 | once resumed, gives up if the wait has timed out, and otherwise tries again |
| `RwLockObjects.RwLock.Unlock` | src/rwlock.c:304-345 | the last one out hands the lock to the first queued writer, or lets all readers go if there is none |
| `RwProtocol.RdGives` | src/rwlock.c:139-165 | a reader gets the lock exactly if no writer has it or waits for it; if not, a try fails, a timed lock fails at a deadline that has come and otherwise waits until its deadline, an untimed one waits, and a timed wait that has timed out fails |
| `RwProtocol.WrGives` | src/rwlock.c:257-285 | the same for a writer, who gets it exactly if there are no readers and no other writer |
| `RwProtocol.UnlockGives` | src/rwlock.c:304-345 | if no writer is queued, everybody who waits to read is woken, also while others still read; if one is queued and nobody has the lock any more, the writer of highest priority, of several the first, is woken and has been handed it; while others still read, nobody moves |
| `RwProtocol.Exclusion` | src/rwlock.c:304-336 | over all runs: at most one writer, never with readers, and `readers` is the number of read holders |
| `RwProtocol.Progress` | src/rwlock.c:324-343 | over all runs, also when timed waits expire: whoever is queued waits for somebody that has the lock or has been handed it |
| `RwProtocol.GrantHonoured` | src/rwlock.c:259-285 | a writer that was handed the lock gets it when its timed wait resumes, and a timed wait that fails leaves the lock as it was, not in its name |
| `RwProtocol.GrantHonouredUntimed` | src/rwlock.c:186-197 | so does a writer in an untimed wait |
| `RwProtocol.NoBarging` | src/rwlock.c:222-229 | in every step, a writer that was not handed the lock takes it only when nobody is queued, and a reader only when there is no writer, active or queued |
| `MempoolProtocol.RoundIs` | src/mempool.c:53-54 | the rounding gives the next multiple of the word size exactly for sizes up to 2^32 - 4, and 2^32 - 4 itself exactly for the family of sizes that breaks the pool |
| `MempoolProtocol.InitInv` | src/mempool.c:31-61 | a new pool has no blocks, all of its bytes unused, and meets the invariant unless a block size is in the family that wraps |
| `MempoolProtocol.NewPool` | src/mempool.c:31-61 | a pool is made exactly if the control data fits the area; class i serves the i-th size asked for, rounded up to the word |
| `MempoolProtocol.ServedFrom` | src/mempool.c:51-77 | over all runs: an allocation is served from the first of the sizes asked for that is large enough |
| `MempoolProtocol.BlockPlaced` | src/mempool.c:85-96 | over all runs: every carved block is aligned and inside the area behind the control data, and a held one names its slot in the header |
| `MempoolProtocol.BlocksApart` | src/mempool.c:85-93 | over all runs: carved blocks do not overlap |
| `MempoolProtocol.HeldOrFree` | src/mempool.c:127-128 | over all runs: a carved block is either held or on exactly one free list, that of the slot it was carved for, and the free lists are finite chains without repetition |
| `MempoolProtocol.AllocGives` | src/mempool.c:74-99 | an allocation gives a block that nobody holds, of the first class that is large enough; it fails only if there is none, or all its blocks are held and the rest of the area is too small |
| `MempoolProtocol.AllocTakes` | src/mempool.c:79-96 | a block is the first free one of its class, or else the next bytes of the area, which shrinks by the block size and a header; the header names the slot; nothing else changes |
| `MempoolProtocol.FreeGives` | src/mempool.c:113-131 | a block given back is the first of its free list, and neither the account nor any other word changes; NULL changes nothing |
| `MempoolProtocol.FreeReused` | src/mempool.c:127-128 | it is the next block that its class hands out |
| `MempoolSpec.FirstFit` | src/mempool.c:74-77 | the loop stops at the first slot whose blocks are large enough |
| `MempoolProtocol.SmallestClass` | src/mempool.c:74-77 | with ascending sizes, that class is the smallest one that is large enough |
| `MempoolProtocol.PayloadKept` | src/mempool.c:127-128 | what a holder wrote into its block stays there through every other operation |
| `MempoolProtocol.Accounting` | src/mempool.c:81-93 | over all runs: total bytes are unused bytes plus the bytes of all carved blocks; `used_blocks` is held plus free blocks, and is the most blocks of the slot that were ever held at once |
| `MempoolProtocol.DistinctExactly` | src/mempool.c:86-91 | in every run two allocations in a row give different blocks, if and only if no block size is from 2^32 - 7 to 2^32 - 4 |
| `MempoolProtocol.SameBlockTwice` | src/mempool.c:86-91 | with such a size, two allocations in a row give the same block |
| `Mempools.Mempool.Create` | src/mempool.c:31-61 | fails exactly if the control data does not fit, otherwise fills the slots in place |
| `Mempools.Mempool.TryAlloc` | src/mempool.c:63-100 | the loop and the header writes compute the allocation function and keep the invariant |
| `Mempools.Mempool.TakeBlock` | src/mempool.c:79-96 | the first free block, or else a new one if it fits, gets its slot into the header |
| `Mempools.Mempool.FreeZone` | src/mempool.c:113-131 | finds the slot through the header word and puts the block first on its free list; NULL changes nothing |
| `TimerSpec.FireFirstPending` | src/timeout.c:109-124 | each round of the timer loop takes one off the number of firings that are due, so the loop ends |
| `TimerSpec.FireDueEffect` | src/timeout.c:109-124 | a periodic timer is called for each of its deadlines up to now, floor((now - timeout) / period) + 1 times, a one-shot timer once if due, in the order of the deadlines; remaining deadlines are in the future and have moved by whole periods |
| `TimerSpec.StartEffect` | src/timer.c:66-100 | a started timer is pending at its deadline with its period; stopping it again gives the list without it; other timers are as before |
| `TimerSpec.StartOrder` | src/timer.c:53-64 | a started timer is behind exactly those whose deadline is not later, and the others keep their order |
| `TimerSpec.StopOrder` | src/timer.c:87-100 | a stopped timer is not pending, and the others keep their order and their times |
| `TimerSpec.FireOrder` | src/timeout.c:109-124 | of timers with the same deadline, the one that was started first is called first |
| `TimerObjects.TimerQueue.TimerInit` | src/timer.c:39-51 | a new timer is known and not pending |
| `TimerObjects.TimerQueue.ScanTimers` | src/timer.c:58-62 | the walk over wrapped deadlines ends at the node of the first later one, or at the head |
| `TimerObjects.TimerQueue.ScheduleTimer` | src/timer.c:53-64 | the scan over wrapped deadlines puts the timer behind those with the same deadline |
| `TimerObjects.TimerQueue.StartTimer` | src/timer.c:78-82 | a timer is taken off the list, programmed and put back in order |
| `TimerObjects.TimerQueue.StopTimer` | src/timer.c:87-100 | a timer is taken off the list, pending or not |
| `TimerObjects.TimerQueue.Fire` | src/timeout.c:116-123 | a round takes the first timer off the list, puts a periodic one back a period later, and calls it |
| `TimerObjects.TimerQueue.TickTimers` | src/timeout.c:109-124 | the loop over wrapped deadlines makes exactly the calls of the timer function, also for timers that are several periods late |
| `AlarmSpec.RetimeEffect` | src/alarm_clock.c:96-116 | setting the clock puts every waiter on the timeout list once, in one block at the new deadline, keeps the list in order, and leaves the other timeouts in their order |
| `AlarmSpec.WakeEachEffect` | src/alarm_clock.c:91-92 | the wake loop from the head wakes exactly the waiters |
| `AlarmSpec.WakeEachOrder` | src/alarm_clock.c:91-92 | the waiters come out in the order in which they waited |
| `AlarmProtocol.StepKeeps` | src/alarm_clock.c:62-68 | every operation keeps each waiter on the timeout list exactly when the clock is armed, and then at the wakeup time |
| `AlarmProtocol.Rings` | src/alarm_clock.c:86-118 | over all runs, the first tick at or past the wakeup time wakes every waiter, and a tick before it, or with the clock not armed, none |
| `AlarmProtocol.SetRetimes` | src/alarm_clock.c:88-118 | a wakeup time that has come lets all waiters go at once; another one becomes the deadline of all of them |
| `AlarmProtocol.WaitWaits` | src/alarm_clock.c:46-70 | current waits on the list and another task runs if the clock is not armed, or with the wakeup time as its deadline if that is still to come; otherwise nothing happens |
| `AlarmProtocol.SetOthers` | src/alarm_clock.c:82-116 | the clock is armed for the new time, and tasks that do not wait for it stay where they are, with their timeouts |
| `AlarmProtocol.ResetLeaves` | src/alarm_clock.c:134-142 | the clock is disarmed, its waiters have no timeout and go on waiting, and nobody moves |
| `AlarmObjects.AlarmClock.Wait` | src/alarm_clock.c:46-70 | current is queued, with the deadline armed if the clock is; a wakeup time that has passed does not block |
| `AlarmObjects.AlarmClock.WakeWaiters` | src/alarm_clock.c:91-92 | the loop from the head empties the list and computes the wake function |
| `AlarmObjects.AlarmClock.UntimeWaiters` | src/alarm_clock.c:98-100 | the loop along the task list takes each waiter off the timeout list |
| `AlarmObjects.AlarmClock.ArmWaiters` | src/alarm_clock.c:110-116 | the backward loop links each waiter once, in front of the same node |
| `AlarmObjects.AlarmClock.Set` | src/alarm_clock.c:82-116 | the three list loops compute the batch move |
| `AlarmObjects.AlarmClock.Reset` | src/alarm_clock.c:134-142 | the waiters leave the timeout list and go on waiting |
| `DynTickSpec.UpdateExact` | src/timeout.c:36-64 | an update programs the first of all pending deadlines, and suspends the tick exactly when none is pending |
| `DynTickSpec.NeverMissed` | src/timeout.c:36-64 | over all runs of kernel, timer and alarm clock operations, nothing pending is due before the programmed time, and with the tick suspended nothing is pending |
| `DynTickSpec.UpdatedExactly` | src/timer.c:77-83 | after every operation that updates, the programmed time is the first pending deadline |
| `DynTickObjects.DynTick.Update` | src/timeout.c:36-64 | the comparison of wrapped clock values chooses the earlier of the first timeout and the first timer |
| `DynTickObjects.DynTick.Tick` | src/timeout.c:87-129 | the whole tick on the linked lists: due tasks woken, due timers called, and the next interrupt programmed for what is then the first pending deadline |
| `DynTickObjects.DynTick.SetTimeout` | src/timeout.c:67-85 | a deadline that is linked is followed by the update of the programmed time; one that has passed is not |
| `DynTickObjects.DynTick.StartTimer` | src/timer.c:66-85 | a timer is started and the programmed time updated |
| `DynTickObjects.DynTick.AlarmSet` | src/alarm_clock.c:72-121 | the clock is set, and the programmed time updated exactly if waiters got a new deadline |
| `DynTickObjects.DynTick.AlarmReset` | src/alarm_clock.c:123-148 | the clock is reset, and the programmed time updated exactly if waiters lost their deadline |

## Left out

- Architecture code, stack set-up, interrupt masks and the idle loop: a region with interrupts disabled is one step, and a reschedule makes the first running task current at its end.
- The LDREX/STREX fast paths of the mutex (include/gyros/mutex.h): only the slow paths are modelled.
- Trace log, debug printing, hooks, error handler and magic numbers; misuse that the debug build reports, such as an unlock by another task, is excluded by preconditions.
- MutexProtocol.NoPriorityInversion: for tasks that hold one mutex at a time (NestedUnlock), and without suspending, or changing the priority of, a task inside the lock call; the holder of a mutex is given no priority below that of a waiter (HolderSet).
- Task exit, delete, join and iteration, and suspending or deleting a task that is in a call of the object under study.
- `gyros_task_resume` of a task with a pending timeout in the runs: it leaves the timeout node of a running task linked (`Bystander.ResumeExactly`).
- That a timed wait of a semaphore, message queue or event group that fails has reached its deadline: it also fails when it is woken and finds what it was woken for taken.
- Progress of blocked senders of a static message queue: a receive wakes nobody.
- Time.UsNeverShort: arithmetic without overflow, and no upper bound for rates that are not multiples of 10^6 (UsExactly), since the rounding terms of the source are generous.
- The configuration is the default one: 64-bit time, timers and dynamic tick on, no user-supplied tick conversions; the pool is for a 32-bit target with debug information.
- MempoolProtocol.InitInv: for fewer than 2^28 - 1 block sizes, so that the size of the control data does not wrap; the area does not reach the end of the address space.
- Kernels.Kernel.TaskSetTimeout: stores the deadline before the node is inserted and not after it, which nothing can observe inside the region; so does the third loop of `AlarmObjects.AlarmClock.Set`. The clock value and the unwrapped times are parameters.
- Kernels.Kernel.TaskCreate: initialises the main node of the task as well, which the source leaves to the insertion. Before the start the source's current is NULL; the model has the idle task there, on no list.
- MqObjects.Mq.Send: a message header without a value is modelled as a self-linked one.
- TimerObjects.TimerQueue.TickTimers: periods are not negative and callbacks leave the timers alone; the timers have nodes of their own, apart from those of the kernel.
