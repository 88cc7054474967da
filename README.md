# PingPongOS scheduling kernel in Dafny

PingPongOS is a small teaching operating system. Its kernel keeps a set of
task descriptors and a ready queue, and a dispatcher task hands the processor
to the task the scheduler picks. The repository holds two versions of that
kernel, and this project models both as separate modules:

- `PingPong` (`pingpong.dfy`) is the current version,
  `07_Tarefa_principal/pingpong.c`. It has:
  - owner classes (USUARIO / SISTEMA);
  - a tick counter and a quantum of 20 ticks;
  - CPU-time and activation accounting;
  - a scheduler that scans the ready queue for the first task of least
    dynamic priority (`prioridade_max` with `task_compare`), then ages
    every other ready task.
- `PingPongEarly` (`pingpong_early.dfy`) is the earlier version,
  `pingpong.c`. It has no timer and no owner classes: main is id 0, the
  dispatcher id 1, user tasks are ids above 1. Its scheduler counting-sorts
  the ready queue by dynamic priority, with the frequency array of 40 slots
  the code declares, and takes the head.
- `CountingSort` (`sorting.dfy`) is that version's `counting_sort`, over
  arrays as the C code does it:
  - counting into a frequency array;
  - exclusive prefix sums;
  - scattering into an output buffer;
  - relinking the circular `prev`/`next` list.
- `Priority` (`priority.dfy`) holds the priority arithmetic both versions
  share: clamping to [PRIO_MAX, PRIO_MIN] = [-20, 20], the `between` macro
  and aging by ALPHA = -1.
- `Common` (`common.dfy`) holds the shared declarations:
  - the task state enum;
  - queue identities;
  - the queue library (`queue_append`, `queue_remove`) as sequence
    operations;
  - the bookkeeping that ties a task's `fila_atual` to the queue it is
    linked into.

## How the state is represented

- **Globals as fields.** In each version the globals are the fields of
  `class Kernel`: `tarefa_atual`, `fila_tprontas`, `userTasks`, `id_count`,
  and in the current version also `quantum_count` and `sys_clock_ms`. Every
  kernel call is a method that changes them.
- **Descriptors.** The descriptors live in an arena `map<Handle, Task>`. A
  `task_t *` is a `Handle`, and NULL is `None`.
- **Queues.** Every queue is the sequence of the handles it links, starting
  from its head. `fila_atual` is an `Option<QueueId>`.
- **Context switches.** A switch is the assignment of `current`.

**How the methods are specified.** The state changes of the internal helpers
are pure functions of the state:

| function | models |
|---|---|
| `ReadyTasks`/`ReadyQueues` | `task_set_ready` |
| `ExecTasks`/`ExecQueues` | `task_set_executing` |
| `SwitchTasks`/`SwitchQueues` | `task_switch` |
| `ExitTasks`/`ExitQueues` | `task_exit` |
| `SuspendTasks`/`SuspendQueues` | `task_suspend` |
| `Charge` | tick accounting |

Each method's postcondition ties the new state to those functions. Lemmas
about the functions then prove:

- the bookkeeping invariant `WellFormed` is kept;
- the roles fixed at initialisation (`Roles`) are kept;
- the behavioural properties listed below.

**Not in the table.** The getters `GetPrio`, `GetDinamicPrio`, `TaskId` and
`Systime`, and the transition functions, are modelled but carry no contract
of their own, so they have no row in the table.

**The dispatcher's tasks.** The bodies of the dispatched tasks are code
outside the kernel. `DispatcherBody` is therefore given them as a script of
`Action`s, one per round:

- yield;
- exit with a code;
- suspend itself on a queue;
- in the current version only, run until the timer preempts it.

## Model

| member | source | states |
|---|---|---|
| Priority.Clamp | 07_Tarefa_principal/pingpong.c:518-524 | the clamped priority lies in [PRIO_MAX, PRIO_MIN], equals the input when that is already in range, and is the in-range value nearest the input |
| Priority.ClampPrio | 07_Tarefa_principal/pingpong.c:577-582 | the clamping statements of the priority setters compute Clamp |
| Priority.BetweenIsOpenRange | 07_Tarefa_principal/pingpong.c:37 | with the kernel's constants `between(PRIO_MAX, p, PRIO_MIN)` holds exactly when -20 < p < 20, both ends excluded |
| Priority.AddAlpha | 07_Tarefa_principal/pingpong.c:602-621 | the new dynamic priority is the old one plus alpha, clamped into range |
| Priority.AgedPrio | 07_Tarefa_principal/pingpong.c:561-566 | a passed-over task strictly inside (-20, 20) drops by exactly 1; at -20 or 20 it is unchanged |
| Priority.AgingTrajectory | 07_Tarefa_principal/pingpong.c:550-568 | after k passed-over rounds the dynamic priority is p - k floored at -20, except that a task at 20 stays at 20 |
| Priority.ReachesMostUrgent | 07_Tarefa_principal/pingpong.c:37 | starvation bound: below 20, p + 20 passed-over rounds reach the most urgent value; a task at 20 never moves |
| Common.Remove | 07_Tarefa_principal/pingpong.c:487-489 | queue_remove keeps exactly the other members, never grows the queue, is the identity when the task is absent and keeps a queue free of repetitions |
| Common.RemoveDropsOne | 07_Tarefa_principal/pingpong.c:487-489 | on a queue without repetitions, queue_remove of the task at place i leaves the members before it and the members after it in their order: the result is the part before i followed by the part after i |
| Common.MoveToEffect | 07_Tarefa_principal/pingpong.c:487-492 | the unlink and queue_append queue by queue: the target queue ends with the task after its other members, the queue `fila_atual` named loses the task (queue_remove), and every other queue is unchanged |
| Common.MoveToKeepsLinked | 07_Tarefa_principal/pingpong.c:483-495 | moving a task to a queue's tail keeps every queue free of repetitions and every `fila_atual` naming the queue that holds the task |
| Common.DetachKeepsLinked | 07_Tarefa_principal/pingpong.c:499-509 | unlinking a task and clearing its `fila_atual` keeps the same bookkeeping |
| Common.PermuteKeepsLinked | pingpong.c:504-578 | reordering one queue's members keeps the bookkeeping |
| Common.PermutationKeepsNoDup | pingpong.c:504-578 | a permutation of a queue without repetitions has none either |
| PingPong.ReadyKeepsWellFormed | 07_Tarefa_principal/pingpong.c:483-495 | task_set_ready keeps the queue bookkeeping and the priority ranges |
| PingPong.ExecKeepsWellFormed | 07_Tarefa_principal/pingpong.c:499-509 | task_set_executing keeps them |
| PingPong.SwitchKeepsWellFormed | 07_Tarefa_principal/pingpong.c:243-284 | task_switch keeps them, for a user or a system task going out |
| PingPong.SuspendKeepsWellFormed | 07_Tarefa_principal/pingpong.c:293-313 | task_suspend keeps them, with or without a queue |
| PingPong.TaskCompare | 07_Tarefa_principal/pingpong.c:622-629 | positive exactly when task1 is more urgent (smaller dynamic priority), negative exactly when task2 is, zero exactly when equal |
| PingPong.PrioridadeMax | 07_Tarefa_principal/pingpong.c:632-663 | None exactly for a null or empty queue; otherwise a member of least dynamic priority, and the first one met from the head |
| PingPong.SwitchKeepsOneRunning | 07_Tarefa_principal/pingpong.c:243-284 | if the outgoing task is the one EXECUTANDO task, after task_switch the target is, whatever the outgoing task's owner |
| PingPong.ExitKeepsOneRunning | 07_Tarefa_principal/pingpong.c:199-223 | task_exit hands the single EXECUTANDO status to the successor |
| PingPong.InitialStateHasNoRunningTask | 07_Tarefa_principal/pingpong.c:438-479 | right after pingpong_init no descriptor is EXECUTANDO |
| PingPong.InitialStateValid | 07_Tarefa_principal/pingpong.c:106-123 | the state pingpong_init leaves keeps the bookkeeping and the roles |
| PingPong.SuspendResumeRoundTrip | 07_Tarefa_principal/pingpong.c:293-335 | task_suspend(t, &q) then task_resume(t): t is PRONTO at the ready-queue tail, out of q, priorities kept, no other descriptor changed |
| PingPong.SelfSuspendUndone | 07_Tarefa_principal/pingpong.c:319-321 | task_suspend(NULL, &q) by a user task ends PRONTO in the ready queue and out of q, because the switch to the dispatcher re-queues it |
| PingPong.ChargeTwice | 07_Tarefa_principal/pingpong.c:743-746 | charging one tick after n ticks is charging n + 1 |
| PingPong.Kernel.SetReady | 07_Tarefa_principal/pingpong.c:483-495 | returns 0; PRONTO, unlinked from its old queue, appended to the ready queue, `fila_atual` the ready queue; bookkeeping kept, nothing else changed |
| PingPong.Kernel.SetExecuting | 07_Tarefa_principal/pingpong.c:499-509 | returns 0; EXECUTANDO, unlinked from its queue, `fila_atual` NULL; bookkeeping kept |
| PingPong.Kernel.SetDinamicPrio | 07_Tarefa_principal/pingpong.c:571-588 | the target (current task for NULL) gets the clamped dynamic priority; nothing else changes |
| PingPong.Kernel.SetPrio | 07_Tarefa_principal/pingpong.c:514-536 | the clamped value becomes both the static and the dynamic priority, so task_getprio returns it |
| PingPong.Kernel.AlphaDinamicPrio | 07_Tarefa_principal/pingpong.c:602-621 | the dynamic priority becomes AddAlpha of the old one and stays in range |
| PingPong.Kernel.TaskGetOld | 07_Tarefa_principal/pingpong.c:550-568 | NULL or an unlinked task ages nobody; otherwise every other member of its list is aged once and no other descriptor changes |
| PingPong.Kernel.AgeOne | 07_Tarefa_principal/pingpong.c:561-566 | the loop body ages exactly one descriptor |
| PingPong.Kernel.AgeRing | 07_Tarefa_principal/pingpong.c:560-567 | the walk round the circular list from the excluded task ages each other position once and stops back at the start |
| PingPong.Kernel.Scheduler | 07_Tarefa_principal/pingpong.c:412-435 | None exactly on an empty ready queue; otherwise the first least-dynamic-priority task, every other ready task aged, the winner reset to its static priority, queues and static priorities untouched |
| PingPong.Kernel.HandOver | 07_Tarefa_principal/pingpong.c:252-262 | a user task going out is made ready and the target executing; for a system task only the two statuses flip |
| PingPong.Kernel.SwitchTo | 07_Tarefa_principal/pingpong.c:250-278 | the target becomes current, the quantum counter is refilled to 20 and the target's activation count goes up |
| PingPong.Kernel.Switch | 07_Tarefa_principal/pingpong.c:243-284 | NULL returns -1 with no change; otherwise returns 0 with the state given by SwitchTasks/SwitchQueues, the roles are kept, and when the outgoing task was the one EXECUTANDO task the target now is |
| PingPong.Kernel.Exit | 07_Tarefa_principal/pingpong.c:199-240 | the exiting task is FINALIZADO; the dispatcher (id -1) hands over to main, anyone else to the dispatcher with one user task fewer; a user successor is unlinked as EXECUTANDO; when the exiting task was the one EXECUTANDO task the successor now is |
| PingPong.Kernel.MarkStatus | 07_Tarefa_principal/pingpong.c:215 | a bare status assignment changes only that status and keeps bookkeeping and roles |
| PingPong.Kernel.Create | 07_Tarefa_principal/pingpong.c:127-196 | NULL returns -1 with no change; a new descriptor, or a finished one linked into no queue, is set afresh: returns the old id_count, id_count and userTasks go up, the descriptor is a PRONTO user task with default priorities, zeroed accounting, the creation time and the current task as parent, at the ready-queue tail; the roles are kept unless the dispatcher's own descriptor is re-created |
| PingPong.Kernel.InitDescriptor | 07_Tarefa_principal/pingpong.c:127-161 | the descriptor (new, or finished and unlinked) set up before queueing: NOVO, in no queue, next id, current task as parent |
| PingPong.Kernel.SuspendIn | 07_Tarefa_principal/pingpong.c:302-313 | SUSPENSO; with a queue, moved from its queue to that queue's tail with `fila_atual` updated |
| PingPong.Kernel.Suspend | 07_Tarefa_principal/pingpong.c:293-324 | with a task given, exactly SuspendIn; for NULL, SuspendIn on the current task followed by the switch to the dispatcher |
| PingPong.Kernel.Resume | 07_Tarefa_principal/pingpong.c:328-335 | task_resume is task_set_ready |
| PingPong.Kernel.Yield | 07_Tarefa_principal/pingpong.c:341-363 | a switch to the dispatcher |
| PingPong.Kernel.TimerTick | 07_Tarefa_principal/pingpong.c:743-764 | clock and the current task's CPU time up by one; the quantum counter moves only for a user task; a switch to the dispatcher happens exactly when the counter was 0 before the decrement |
| PingPong.Kernel.RunToPreemption | 07_Tarefa_principal/pingpong.c:743-764 | a user task switched in with the counter at 20 is preempted on the 21st tick, having been charged 21 ticks |
| PingPong.Kernel.InitTarefaPrincipal | 07_Tarefa_principal/pingpong.c:438-473 | main gets the next id, no parent, one activation, default priorities, one more user task, and is left PRONTO at the ready-queue tail as the current task |
| PingPong.Kernel.InitMainDescriptor | 07_Tarefa_principal/pingpong.c:440-455 | main's descriptor before task_set_ready: EXECUTANDO, in no queue |
| PingPong.Kernel.InitDispatcher | 07_Tarefa_principal/pingpong.c:474-479 | the dispatcher is created (counted and queued) as a user task, then relabelled SISTEMA with id -1 |
| PingPong.Kernel.InitMainAndDispatcher | 07_Tarefa_principal/pingpong.c:112-113 | from the empty state the two set-ups leave InitialTasks with main then dispatcher in the ready queue |
| PingPong.Kernel.constructor | 07_Tarefa_principal/pingpong.c:106-123 | pingpong_init: InitialTasks, ready queue [main, dispatcher], current main, userTasks and id_count forced to 1 |
| PingPong.Kernel.Perform | 07_Tarefa_principal/pingpong.c:399 | whatever the dispatched task does, control comes back to the dispatcher with the invariants kept |
| PingPong.Kernel.DispatchRound | 07_Tarefa_principal/pingpong.c:380-404 | None exactly when the ready queue is empty, and then nothing changes; otherwise the chosen task was in the ready queue |
| PingPong.Kernel.RunTask | 07_Tarefa_principal/pingpong.c:391-399 | set executing, switch, and back at the dispatcher with the invariants kept |
| PingPong.Kernel.DispatcherBody | 07_Tarefa_principal/pingpong.c:374-408 | the run ends in one of three ways: no user tasks left (AllDone), an empty ready queue with user tasks still counted (NothingReady), or the script used up; in every case task_exit(0) then leaves the dispatcher FINALIZADO and main current, EXECUTANDO and in no queue |
| PingPongEarly.ReadyKeepsWellFormed | pingpong.c:345-357 | task_set_ready keeps the bookkeeping |
| PingPongEarly.ExecKeepsWellFormed | pingpong.c:361-371 | task_set_executing keeps it |
| PingPongEarly.SuspendKeepsWellFormed | pingpong.c:189-220 | task_suspend keeps it |
| PingPongEarly.PermuteKeepsWellFormed | pingpong.c:504-578 | replacing the ready queue by a reordering of it keeps it |
| PingPongEarly.TaskCompare | pingpong.c:498-501 | positive exactly when task1 is the less urgent task, negative exactly when it is the more urgent one |
| PingPongEarly.TaskCompareSignReversed | pingpong.c:495-501 | for the most urgent task against a default one the result is negative, the opposite of what the comment promises |
| PingPongEarly.SortedHead | pingpong.c:304-323 | with no ready task at PRIO_MIN, the 40-slot counting sort of the ready queue is a reordering of it whose head is the first task of least dynamic priority in the old order |
| PingPongEarly.OverflowExact | pingpong.c:518-531 | the 40 slots hold the ready queue exactly when none of its tasks is at PRIO_MIN |
| PingPongEarly.SchedulerEffect | pingpong.c:304-323 | with no ready task at PRIO_MIN, the 40-slot sort, task_get_old on the new head and the head's reset make up Scheduled |
| PingPongEarly.ExitKeepsOneRunning | pingpong.c:150-152 | task_exit hands the single EXECUTANDO status to the successor |
| PingPongEarly.SelfSuspendSticks | pingpong.c:189-220 | task_suspend(NULL, &q) leaves the task SUSPENSO, in q and out of the ready queue, since task_switch here changes no status and no queue |
| PingPongEarly.InitialStateValid | pingpong.c:61-66 | pingpong_init's state keeps the bookkeeping and the roles, and main is the one EXECUTANDO task |
| PingPongEarly.Kernel.SetReady | pingpong.c:345-357 | returns 0; PRONTO, moved to the ready-queue tail, `fila_atual` the ready queue |
| PingPongEarly.Kernel.SetExecuting | pingpong.c:361-371 | returns 0; EXECUTANDO, unlinked, `fila_atual` NULL |
| PingPongEarly.Kernel.MarkStatus | pingpong.c:151-152 | a bare status assignment changes only that status and keeps bookkeeping and roles |
| PingPongEarly.Kernel.SetDinamicPrio | pingpong.c:443-460 | the clamped value becomes the dynamic priority |
| PingPongEarly.Kernel.SetPrio | pingpong.c:376-408 | the clamped value becomes both priorities (clamped twice, as written) |
| PingPongEarly.Kernel.AlphaDinamicPrio | pingpong.c:474-493 | old dynamic priority plus alpha, clamped |
| PingPongEarly.Kernel.TaskGetOld | pingpong.c:422-440 | NULL or an unlinked task ages nobody; otherwise every other member of its list is aged once |
| PingPongEarly.Kernel.AgeOne | pingpong.c:435-438 | the loop body ages one descriptor |
| PingPongEarly.Kernel.AgeRing | pingpong.c:434-439 | the walk ages each other position once |
| PingPongEarly.Kernel.SortReady | pingpong.c:311 | counting_sort with its 40-slot frequency array: it fails (None, nothing changed) exactly when a ready task is at PRIO_MIN, which would index past the array; otherwise the ready queue becomes the sorted sequence, bookkeeping kept |
| PingPongEarly.Kernel.AgeOthers | pingpong.c:315-317 | every other ready task is aged and the head's dynamic priority is reset to its static one |
| PingPongEarly.Kernel.Scheduler | pingpong.c:304-323 | reports an overflow exactly when a ready task is at PRIO_MIN, and then changes nothing; None exactly on an empty ready queue or an overflow; otherwise the state is Scheduled for the returned head |
| PingPongEarly.Kernel.Switch | pingpong.c:163-180 | NULL returns -1; otherwise only the current task changes, no status and no queue |
| PingPongEarly.Kernel.Exit | pingpong.c:135-160 | main ends the process with the code; the dispatcher hands over to main, others to the dispatcher; in both cases userTasks drops by one, the exiting task FINALIZADO and the successor EXECUTANDO |
| PingPongEarly.Kernel.Create | pingpong.c:70-132 | NULL returns -1; a new descriptor, or a finished one linked into no queue, is set afresh with id = id_count++; only ids above 1 count as user tasks and join the ready queue, ids 0 and 1 are just PRONTO; the roles are kept unless main's or the dispatcher's descriptor is re-created |
| PingPongEarly.Kernel.ReadyCreated | pingpong.c:112-120 | a created user task: one more user task, appended PRONTO to the ready queue |
| PingPongEarly.Kernel.InitDescriptor | pingpong.c:77-99 | the descriptor (new, or finished and unlinked): NOVO, in no queue, next id, current task as parent, default priorities |
| PingPongEarly.Kernel.SuspendIn | pingpong.c:189-213 | SUSPENSO; with a queue, moved to its tail |
| PingPongEarly.Kernel.Suspend | pingpong.c:189-220 | SuspendIn; for NULL then a switch to the dispatcher, which leaves the suspension standing |
| PingPongEarly.Kernel.Resume | pingpong.c:224-231 | task_resume is task_set_ready |
| PingPongEarly.Kernel.Yield | pingpong.c:237-259 | a task with id above 1 is re-queued at the ready tail; main and the dispatcher are only marked PRONTO; then current is the dispatcher |
| PingPongEarly.Kernel.InitTarefaPrincipal | pingpong.c:326-341 | main gets the next id (0 at start), no parent, default priorities, EXECUTANDO in no queue, and becomes current; id_count goes up |
| PingPongEarly.Kernel.constructor | pingpong.c:61-66 | pingpong_init: main EXECUTANDO, dispatcher id 1 PRONTO in no queue, empty ready queue, no user tasks |
| PingPongEarly.Kernel.Perform | pingpong.c:292 | control comes back to the dispatcher, unless main exits and the process ends |
| PingPongEarly.Kernel.RunTask | pingpong.c:284-293 | set executing, dispatcher PRONTO, switch, then the dispatcher the one EXECUTANDO task again |
| PingPongEarly.Kernel.DispatchRound | pingpong.c:276-297 | the overflow flag exactly as the scheduler reports it; None exactly on an empty ready queue or an overflow, with no change; otherwise the chosen task was in the ready queue |
| PingPongEarly.Kernel.DispatcherBody | pingpong.c:270-300 | unless main's exit ends the process or the sort overflows, the final task_exit(0) leaves the dispatcher FINALIZADO and main the one EXECUTANDO task; SortOverflow leaves the dispatcher current with a ready task at PRIO_MIN; after an AllDone run userTasks is below zero; NothingReady means an empty ready queue |
| CountingSort.FilterCount | pingpong.c:528-531 | a slot's list holds each task of that slot as often as the input does, and no other task |
| CountingSort.PrefixCount | pingpong.c:546-554 | the output for slots below s holds each task of those slots as often as the input, and nothing else |
| CountingSort.PrefixPermutation | pingpong.c:504-578 | the sorted list is a permutation of the input of the same length |
| CountingSort.PrefixSorted | pingpong.c:504-578 | the sorted list is non-decreasing in dynamic priority |
| CountingSort.PrefixStable | pingpong.c:546-554 | stability: the tasks of one priority keep their input order |
| CountingSort.Count | pingpong.c:518-531 | the counting pass succeeds exactly when every index fits the array, and then each slot holds its task count |
| CountingSort.PrefixSums | pingpong.c:534-539 | each slot becomes the number of tasks in the slots below it |
| CountingSort.Place | pingpong.c:546-548 | one task goes to its slot's next free place and the counter moves on |
| CountingSort.ScatterStep | pingpong.c:550-554 | the scattering invariant survives one more task |
| CountingSort.ScatterDone | pingpong.c:546-554 | once every task is scattered the buffer is the sorted list |
| CountingSort.Scatter | pingpong.c:546-554 | the scattering pass fills the buffer with the sorted list |
| CountingSort.Sort | pingpong.c:504-577 | None exactly when some priority indexes outside the array; otherwise the stable sorted list |
| CountingSort.CRem | pingpong.c:561-562 | C's `%` truncates: the remainder has the dividend's sign and is smaller than the divisor |
| CountingSort.CRemNeighbours | pingpong.c:561-562 | `(i-1)%size` is -1 only at place 0 of a ring of more than one place, else the place before; `(i+1)%size` is the place after |
| CountingSort.Wrap | pingpong.c:565-566 | the `while (x < 0) x += size` loop yields x or x + size within [0, size) |
| CountingSort.RingNeighbours | pingpong.c:559-569 | the computed back and front indices are the ring's neighbours |
| CountingSort.Relink | pingpong.c:559-573 | every sorted task's prev is the one before it in the ring and its next the one after, and no other task is linked |
| CountingSort.RingConsistent | pingpong.c:559-573 | the relinked ring is consistent: next of prev and prev of next give back the task |
| CountingSort.HeadIsFirstMin | pingpong.c:575 | the new head has the least priority and comes first among its ties in the old order |
| CountingSort.AlcanceOverflow | pingpong.c:518-531 | with `PRIO_MIN - PRIO_MAX` slots, every index fits exactly when no task has priority 20 |
| CountingSort.AlcanceCounterexample | pingpong.c:518-520 | a single task at priority 20 indexes past the end of the 40 slots but fits in 41 |
| CountingSort.SlotsSuffice | pingpong.c:518-520 | with 41 slots every task of valid priority fits |

## Left out

- Contexts and stacks: `getcontext`, `makecontext` and `swapcontext`, the
  stack `malloc`, and the `exit(-1)` when it fails. A switch is the
  assignment of `current`.
- Timer setup (`init_timer_system`) and signal delivery. `timer_tick` is one
  synchronous step, so nothing models a tick interrupting a kernel call
  half-way.
- Diagnostic output and the elapsed-time report at task exit: `printf`,
  `perror`, `sprintf`, `setvbuf`, `queue_print`, `task_print` and the debug
  blocks.
- The queue library's pointer code (`queue_append`, `queue_remove`,
  `queue_size`) is not part of this model. Queues are sequences with append
  at the tail and removal by identity.
- PingPongEarly.Kernel.Scheduler: when a ready task is at PRIO_MIN, counting_sort writes one past its 40-slot array, which is undefined behaviour in C. The model reports the overflow, changes nothing, and `PingPongEarly.Kernel.DispatcherBody` stops with `SortOverflow`. It does not model the memory the out-of-bounds write would corrupt.
- PingPong.Kernel.Create: a descriptor still linked into a queue, or not yet finished, is not accepted. In C, re-creating it would overwrite the links of a queue that still points to it. The roles invariant is not promised when the dispatcher's own descriptor is re-created, because that makes it a user task.
- PingPongEarly.Kernel.Create: the same restriction as in the current version. The roles invariant is not promised when main's or the dispatcher's descriptor is re-created, because that changes its id.
- The circular `prev`/`next` links of the ready queue. The scheduler works
  on the queue's sequence, so in `PingPongEarly.Kernel.SortReady` the
  relinked ring is the sorted sequence itself. The relinking loop is modelled
  and proved on its own in `CountingSort.Relink`.
- The commented-out counting sort inside the current version's
  `prioridade_max`, and the empty semaphore, mutex, barrier and message
  queue types.
- The current version's `task_create` has an else branch for non-user
  tasks. That branch is dead, because the owner is set to USUARIO just
  before the test, so the model leaves it out.
- Fixed-width counters:
  - `t_executado` and `sys_clock_ms` are `unsigned int`;
  - `contador_processo` is `unsigned long long`;
  - `userTasks`, `id_count` and `quantum_count` are `int`.

  All are unbounded integers here, so wrap-around after 2^32 ticks or 2^31
  tasks is not modelled.
- PingPong.Kernel.Perform: states only the invariants and where control ends up, not the full state after the dispatched task's turn, because what a task does is a parameter (its script step) rather than kernel code.
- PingPong.Kernel.RunTask: states only the invariants and where control ends up, not the full state after the dispatched task's turn, because what a task does is a parameter (its script step) rather than kernel code.
- PingPong.Kernel.DispatchRound: states only the invariants and where control ends up, not the full state after the dispatched task's turn, because what a task does is a parameter (its script step) rather than kernel code.
- PingPong.Kernel.DispatcherBody: the scripted activity is finite, so a run that would continue forever stops with OutOfActivity; the loop's bound is the script's length.
- PingPongEarly.Kernel.Perform: states only the invariants and where control ends up, not the full state after the dispatched task's turn, because what a task does is a parameter (its script step) rather than kernel code.
- PingPongEarly.Kernel.RunTask: states only the invariants and where control ends up, not the full state after the dispatched task's turn, because what a task does is a parameter (its script step) rather than kernel code.
- PingPongEarly.Kernel.DispatchRound: states only the invariants and where control ends up, not the full state after the dispatched task's turn, because what a task does is a parameter (its script step) rather than kernel code.
- PingPongEarly.Kernel.DispatcherBody: the scripted activity is finite, so a run that would continue forever stops with OutOfActivity; the loop's bound is the script's length.

## Where the code differs from the documented design (the model follows the code)

- **Quantum.** In the current version, preemption comes on the 21st tick
  after a switch, not the 20th. `task_switch` sets the counter to 20, and
  `timer_tick` tests `!quantum_count--`, which switches only when the
  counter was already 0 (`PingPong.Kernel.RunToPreemption`).
- **No running task after init.** After `pingpong_init` in the current
  version, no task is EXECUTANDO:
  - main is created EXECUTANDO but made ready;
  - the dispatcher is created as a user task and queued, then relabelled a
    system task;
  - `userTasks` and `id_count` are then forced to 1.

  So "exactly one task is EXECUTANDO" does not hold at the start
  (`PingPong.InitialStateHasNoRunningTask`). It is not a kernel invariant
  either. What is proved is that `task_switch` and `task_exit` pass the
  single EXECUTANDO status on when there is one: see
  `PingPong.Kernel.Switch`, `PingPong.Kernel.Exit`,
  `PingPong.SwitchKeepsOneRunning` and `PingPong.ExitKeepsOneRunning`.
  Other calls break it:
  - `task_suspend` on the current task passed explicitly (not NULL) makes it
    SUSPENSO without a switch, which leaves no task EXECUTANDO;
  - `task_resume` on the current task makes it PRONTO, with the same effect;
  - in `dispatcher_body`, `task_set_executing(next)` makes the next task
    EXECUTANDO while the dispatcher still is, until the `task_switch` that
    follows.
- **Self-suspension.** In the current version, `task_suspend(NULL, &q)` by a
  user task does not stick: the switch to the dispatcher puts the task back
  into the ready queue (`PingPong.SelfSuspendUndone`). In the earlier
  version it sticks (`PingPongEarly.SelfSuspendSticks`).
- **userTasks goes negative.** In the earlier version `task_exit` decrements
  `userTasks` also when the dispatcher exits, so the final `task_exit(0)` of
  `dispatcher_body` leaves it at -1.
- **Yield in the earlier version.** Main and the dispatcher are not
  re-queued by `task_yield`: only tasks with an id above 1 return to the
  ready queue.
- **Main's exit.** In the earlier version, `task_exit` by main ends the
  process (`exit(exitCode)`); the model returns the exit code and leaves the
  state as it was. In the current version that test is commented out, so
  main's exit hands over to the dispatcher like any user task.
- **task_compare in the earlier version.** `counting_sort` is handed
  `task_compare` but never calls it. The sort orders by the dynamic
  priority directly.

## Findings

| source | as written | input that shows it | evidently intended | confidence | as-written member | corrected member |
|---|---|---|---|---|---|---|
| pingpong.c:518-531 | the frequency array has `PRIO_MIN - PRIO_MAX` = 40 slots, but `prio - PRIO_MAX` ranges over 0..40 | one ready task whose dynamic priority is 20 (PRIO_MIN) indexes slot 40, one past the end | 41 slots, one per priority of the valid range | not executed | CountingSort.AlcanceCounterexample | CountingSort.SlotsSuffice |
| pingpong.c:495-501 | `task_compare` returns `prio(task1) - prio(task2)`, negative when task1 is more urgent | task1 at -20 against task2 at 0 gives -20, though the comment promises a positive number when task1 has more priority | `prio(task2) - prio(task1)`, as the current version writes it | not executed | PingPongEarly.TaskCompareSignReversed | PingPong.TaskCompare |
