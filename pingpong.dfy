/** The current PingPongOS kernel (timer, owner classes, linear-scan
    scheduler with aging).  The global variables tarefa_atual, fila_tprontas,
    userTasks, id_count, quantum_count and sys_clock_ms, and the task
    descriptors they point to, are the fields of class Kernel; descriptors
    live in an arena keyed by handle, and every queue is the sequence of
    handles it links.  A context switch is the assignment of `current`. */
module PingPong {
  import opened Common
  import opened Priority

  /** Ticks in a quantum. */
  const QUANTUM: int := 20

  /** Arena handles of the two statically allocated descriptors. */
  const MainH: Handle := 0
  const DispatcherH: Handle := 1

  /** Identifier the dispatcher is relabelled with during initialisation. */
  const DISPATCHER_ID: int := -1

  /** task_dono_t: user tasks are subject to the quantum, system tasks not. */
  datatype Owner = Usuario | Sistema

  /** The descriptor task_t without its machine context and list links. */
  datatype Task = Task(
    id: int,
    status: Status,
    owner: Owner,
    parent: Option<Handle>,
    fila: Option<QueueId>,
    prioEstat: int,
    prioDinam: int,
    tInicio: nat,
    tExecutado: nat,
    contadorProcesso: nat)

  ghost function Filas(tasks: map<Handle, Task>): map<Handle, Option<QueueId>> {
    map h | h in tasks :: tasks[h].fila
  }

  /** Queue bookkeeping and priority ranges, the invariant every operation keeps. */
  ghost predicate WellFormed(tasks: map<Handle, Task>, queues: map<QueueId, seq<Handle>>) {
    ReadyQueue in queues &&
    (forall q :: q in queues ==> NoDup(queues[q])) &&
    (forall q, h :: q in queues && h in queues[q] ==> h in tasks && tasks[h].fila == Some(q)) &&
    (forall h :: h in tasks && tasks[h].fila.Some? ==> tasks[h].fila.value in queues && h in queues[tasks[h].fila.value]) &&
    (forall h :: h in tasks ==> InRange(tasks[h].prioEstat) && InRange(tasks[h].prioDinam))
  }

  /** WellFormed is the shared membership bookkeeping applied to the
      descriptors' membership fields, plus the priority ranges. */
  lemma WellFormedIsLinked(tasks: map<Handle, Task>, queues: map<QueueId, seq<Handle>>)
    ensures WellFormed(tasks, queues) <==>
      ReadyQueue in queues && Linked(Filas(tasks), queues) &&
      (forall h :: h in tasks ==> InRange(tasks[h].prioEstat) && InRange(tasks[h].prioDinam))
  {
    var f := Filas(tasks);
    assert forall h :: h in f <==> h in tasks;
    assert forall h :: h in tasks ==> f[h] == tasks[h].fila;
  }

  lemma FilasUpdate(tasks: map<Handle, Task>, h: Handle, t: Task)
    ensures Filas(tasks[h := t]) == Filas(tasks)[h := t.fila]
  {
  }

  // ---------------------------------------------------------------------
  // The state changes of the internal helpers, as functions of the state.

  /** task_set_ready on the descriptors: PRONTO, member of the ready queue. */
  function ReadyTasks(tasks: map<Handle, Task>, h: Handle): map<Handle, Task>
    requires h in tasks
  {
    tasks[h := tasks[h].(status := Pronto, fila := Some(ReadyQueue))]
  }

  /** task_set_ready on the queues: unlinked from its queue, appended to the ready queue. */
  function ReadyQueues(tasks: map<Handle, Task>, queues: map<QueueId, seq<Handle>>, h: Handle): map<QueueId, seq<Handle>>
    requires h in tasks
  {
    MoveTo(queues, tasks[h].fila, h, ReadyQueue)
  }

  /** task_set_executing on the descriptors: EXECUTANDO, in no queue. */
  function ExecTasks(tasks: map<Handle, Task>, h: Handle): map<Handle, Task>
    requires h in tasks
  {
    tasks[h := tasks[h].(status := Executando, fila := None)]
  }

  /** task_set_executing on the queues: unlinked from its queue. */
  function ExecQueues(tasks: map<Handle, Task>, queues: map<QueueId, seq<Handle>>, h: Handle): map<QueueId, seq<Handle>>
    requires h in tasks
  {
    Detach(queues, tasks[h].fila, h)
  }

  /** n more ticks of processor time charged to task c. */
  function Charge(tasks: map<Handle, Task>, c: Handle, n: nat): map<Handle, Task>
    requires c in tasks
  {
    tasks[c := tasks[c].(tExecutado := tasks[c].tExecutado + n)]
  }

  /** Charging one tick after n is charging n + 1. */
  lemma ChargeTwice(tasks: map<Handle, Task>, c: Handle, n: nat)
    requires c in tasks
    ensures Charge(Charge(tasks, c, n), c, 1) == Charge(tasks, c, n + 1)
  {
  }

  /** task_switch from `last` to `h` on the descriptors: a user task going
      out is made ready and the target executing; for a system task only the
      two statuses flip; the target's activation count goes up. */
  function SwitchTasks(tasks: map<Handle, Task>, last: Handle, h: Handle): map<Handle, Task>
    requires last in tasks && h in tasks
  {
    var t1 := HandOverTasks(tasks, last, h);
    t1[h := t1[h].(contadorProcesso := t1[h].contadorProcesso + 1)]
  }

  /** The status changes of task_switch, before the activation count. */
  function HandOverTasks(tasks: map<Handle, Task>, last: Handle, h: Handle): (r: map<Handle, Task>)
    requires last in tasks && h in tasks
    ensures r.Keys == tasks.Keys
  {
    if tasks[last].owner == Usuario then ExecTasks(ReadyTasks(tasks, last), h)
    else
      var t0 := tasks[last := tasks[last].(status := Pronto)];
      t0[h := t0[h].(status := Executando)]
  }

  /** task_switch from `last` to `h` on the queues. */
  function SwitchQueues(tasks: map<Handle, Task>, queues: map<QueueId, seq<Handle>>, last: Handle, h: Handle): map<QueueId, seq<Handle>>
    requires last in tasks && h in tasks
  {
    if tasks[last].owner == Usuario then ExecQueues(ReadyTasks(tasks, last), ReadyQueues(tasks, queues, last), h)
    else queues
  }

  /** task_exit from `last` to its successor on the descriptors: `last` is
      FINALIZADO; a user successor is made executing, a system one only
      changes status. */
  function ExitTasks(tasks: map<Handle, Task>, last: Handle, succ: Handle): map<Handle, Task>
    requires last in tasks && succ in tasks
  {
    var t1 := tasks[last := tasks[last].(status := Finalizado)];
    if t1[succ].owner == Usuario then ExecTasks(t1, succ)
    else t1[succ := t1[succ].(status := Executando)]
  }

  /** task_exit on the queues: a user successor is unlinked from its queue. */
  function ExitQueues(tasks: map<Handle, Task>, queues: map<QueueId, seq<Handle>>, last: Handle, succ: Handle): map<QueueId, seq<Handle>>
    requires last in tasks && succ in tasks
  {
    if tasks[succ].owner == Usuario then ExecQueues(tasks, queues, succ) else queues
  }

  /** task_suspend before its final switch, on the descriptors. */
  function SuspendTasks(tasks: map<Handle, Task>, w: Handle, q: Option<QueueId>): map<Handle, Task>
    requires w in tasks
  {
    tasks[w := tasks[w].(status := Suspenso, fila := if q.Some? then q else tasks[w].fila)]
  }

  /** task_suspend on the queues: moved to the tail of q when q is given. */
  function SuspendQueues(tasks: map<Handle, Task>, queues: map<QueueId, seq<Handle>>, w: Handle, q: Option<QueueId>): map<QueueId, seq<Handle>>
    requires w in tasks
  {
    if q.Some? then MoveTo(queues, tasks[w].fila, w, q.value) else queues
  }

  // ---------------------------------------------------------------------
  // Lemmas: every helper keeps the bookkeeping, and what each one promises.

  lemma ReadyKeepsWellFormed(tasks: map<Handle, Task>, queues: map<QueueId, seq<Handle>>, h: Handle)
    requires WellFormed(tasks, queues) && h in tasks
    ensures WellFormed(ReadyTasks(tasks, h), ReadyQueues(tasks, queues, h))
  {
    WellFormedIsLinked(tasks, queues);
    FilasUpdate(tasks, h, tasks[h].(status := Pronto, fila := Some(ReadyQueue)));
    MoveToKeepsLinked(Filas(tasks), queues, h, ReadyQueue);
    WellFormedIsLinked(ReadyTasks(tasks, h), ReadyQueues(tasks, queues, h));
  }

  lemma ExecKeepsWellFormed(tasks: map<Handle, Task>, queues: map<QueueId, seq<Handle>>, h: Handle)
    requires WellFormed(tasks, queues) && h in tasks
    ensures WellFormed(ExecTasks(tasks, h), ExecQueues(tasks, queues, h))
  {
    WellFormedIsLinked(tasks, queues);
    FilasUpdate(tasks, h, tasks[h].(status := Executando, fila := None));
    DetachKeepsLinked(Filas(tasks), queues, h);
    WellFormedIsLinked(ExecTasks(tasks, h), ExecQueues(tasks, queues, h));
  }

  lemma HandOverKeepsWellFormed(tasks: map<Handle, Task>, queues: map<QueueId, seq<Handle>>, last: Handle, h: Handle)
    requires WellFormed(tasks, queues) && last in tasks && h in tasks
    ensures WellFormed(HandOverTasks(tasks, last, h), SwitchQueues(tasks, queues, last, h))
  {
    if tasks[last].owner == Usuario {
      ReadyKeepsWellFormed(tasks, queues, last);
      ExecKeepsWellFormed(ReadyTasks(tasks, last), ReadyQueues(tasks, queues, last), h);
    } else {
      SameFilasKeepWellFormed(tasks, HandOverTasks(tasks, last, h), queues);
    }
  }

  lemma SwitchKeepsWellFormed(tasks: map<Handle, Task>, queues: map<QueueId, seq<Handle>>, last: Handle, h: Handle)
    requires WellFormed(tasks, queues) && last in tasks && h in tasks
    ensures WellFormed(SwitchTasks(tasks, last, h), SwitchQueues(tasks, queues, last, h))
  {
    HandOverKeepsWellFormed(tasks, queues, last, h);
    SameFilasKeepWellFormed(HandOverTasks(tasks, last, h), SwitchTasks(tasks, last, h), SwitchQueues(tasks, queues, last, h));
  }

  lemma SuspendKeepsWellFormed(tasks: map<Handle, Task>, queues: map<QueueId, seq<Handle>>, w: Handle, q: Option<QueueId>)
    requires WellFormed(tasks, queues) && w in tasks
    ensures WellFormed(SuspendTasks(tasks, w, q), SuspendQueues(tasks, queues, w, q))
  {
    WellFormedIsLinked(tasks, queues);
    var f := if q.Some? then q else tasks[w].fila;
    FilasUpdate(tasks, w, tasks[w].(status := Suspenso, fila := f));
    if q.Some? {
      MoveToKeepsLinked(Filas(tasks), queues, w, q.value);
    } else {
      assert Filas(tasks)[w := tasks[w].fila] == Filas(tasks);
    }
    WellFormedIsLinked(SuspendTasks(tasks, w, q), SuspendQueues(tasks, queues, w, q));
  }

  /** The roles fixed by pingpong_init: main and the dispatcher exist, the
      dispatcher is the only system task and the only one with id -1. */
  ghost predicate Roles(tasks: map<Handle, Task>) {
    MainH in tasks && DispatcherH in tasks &&
    tasks[DispatcherH].owner == Sistema && tasks[DispatcherH].id == DISPATCHER_ID &&
    (forall h :: h in tasks && h != DispatcherH ==> tasks[h].owner == Usuario && tasks[h].id >= 0)
  }

  /** No descriptor appears or disappears and none changes owner or id. */
  ghost predicate SameRoles(t0: map<Handle, Task>, t1: map<Handle, Task>) {
    t1.Keys == t0.Keys && forall h :: h in t0 ==> t1[h].owner == t0[h].owner && t1[h].id == t0[h].id
  }

  lemma SwitchKeepsRoles(tasks: map<Handle, Task>, last: Handle, h: Handle)
    requires last in tasks && h in tasks
    ensures SameRoles(tasks, SwitchTasks(tasks, last, h))
  {
  }

  lemma RolesCarry(t0: map<Handle, Task>, t1: map<Handle, Task>)
    requires Roles(t0) && SameRoles(t0, t1)
    ensures Roles(t1)
  {
  }

  /** A descriptor task_create can be handed: one the kernel has not seen,
      or one whose task has finished and is linked into no queue.  Every
      field of it is set afresh. */
  ghost predicate Creatable(tasks: map<Handle, Task>, h: Handle) {
    h !in tasks || (tasks[h].status == Finalizado && tasks[h].fila == None)
  }

  /** A fresh descriptor linked into no queue keeps the bookkeeping. */
  lemma AddTaskKeepsWellFormed(tasks: map<Handle, Task>, queues: map<QueueId, seq<Handle>>, h: Handle, t: Task)
    requires WellFormed(tasks, queues) && h !in tasks
    requires t.fila == None && InRange(t.prioEstat) && InRange(t.prioDinam)
    ensures WellFormed(tasks[h := t], queues)
  {
  }

  /** A user descriptor with a non-negative id, stored anywhere but in the
      dispatcher's place, keeps the roles. */
  lemma AddUserKeepsRoles(tasks: map<Handle, Task>, h: Handle, t: Task)
    requires Roles(tasks) && h != DispatcherH && t.owner == Usuario && t.id >= 0
    ensures Roles(tasks[h := t])
  {
  }

  /** Changing one descriptor's priorities, status or counters keeps the
      bookkeeping as long as its membership field stays. */
  lemma UpdateKeepsWellFormed(tasks: map<Handle, Task>, queues: map<QueueId, seq<Handle>>, h: Handle, t: Task)
    requires WellFormed(tasks, queues) && h in tasks
    requires t.fila == tasks[h].fila && InRange(t.prioEstat) && InRange(t.prioDinam)
    ensures WellFormed(tasks[h := t], queues)
  {
  }

  lemma SameFilasKeepWellFormed(t0: map<Handle, Task>, t1: map<Handle, Task>, queues: map<QueueId, seq<Handle>>)
    requires WellFormed(t0, queues) && t1.Keys == t0.Keys
    requires forall h :: h in t0 ==> t1[h].fila == t0[h].fila && InRange(t1[h].prioEstat) && InRange(t1[h].prioDinam)
    ensures WellFormed(t1, queues)
  {
  }

  // ---------------------------------------------------------------------
  // Selection: task_compare and prioridade_max.

  /** task_compare: positive when t1 is more urgent than t2, negative when
      t2 is, zero when their dynamic priorities are equal. */
  function TaskCompare(t1: Task, t2: Task): (r: int)
    ensures r > 0 <==> t1.prioDinam < t2.prioDinam
    ensures r < 0 <==> t2.prioDinam < t1.prioDinam
    ensures r == 0 <==> t1.prioDinam == t2.prioDinam
  {
    t2.prioDinam - t1.prioDinam
  }

  /** q[at] has the smallest dynamic priority in q, and every task before it
      is strictly less urgent: it is the first minimum met from the head. */
  ghost predicate IsFirstMinAt(q: seq<Handle>, tasks: map<Handle, Task>, at: nat)
    requires forall h :: h in q ==> h in tasks
  {
    at < |q| &&
    (forall j :: 0 <= j < |q| ==> tasks[q[at]].prioDinam <= tasks[q[j]].prioDinam) &&
    (forall j :: 0 <= j < at ==> tasks[q[j]].prioDinam > tasks[q[at]].prioDinam)
  }

  /** prioridade_max with task_compare: a linear scan from the head that
      replaces the running best only on a strictly more urgent task.  A null
      queue pointer is None; a null result is None. */
  method PrioridadeMax(taskQ: Option<seq<Handle>>, tasks: map<Handle, Task>) returns (r: Option<Handle>, ghost at: nat)
    requires taskQ.Some? ==> forall h :: h in taskQ.value ==> h in tasks
    ensures r.None? <==> taskQ.None? || taskQ.value == []
    ensures r.Some? ==> at < |taskQ.value| && taskQ.value[at] == r.value && IsFirstMinAt(taskQ.value, tasks, at)
  {
    if taskQ.None? {
      return None, 0;
    }
    var q := taskQ.value;
    if q == [] {
      return None, 0;
    }
    var best := 0;
    var i := 1;
    while i < |q|
      invariant 1 <= i <= |q| && best < i
      invariant forall j :: 0 <= j < i ==> tasks[q[best]].prioDinam <= tasks[q[j]].prioDinam
      invariant forall j :: 0 <= j < best ==> tasks[q[j]].prioDinam > tasks[q[best]].prioDinam
    {
      if TaskCompare(tasks[q[best]], tasks[q[i]]) < 0 {
        best := i;
      }
      i := i + 1;
    }
    r, at := Some(q[best]), best;
  }

  /** After `steps` steps of the walk round q from position `at`, exactly the
      positions already visited hold aged descriptors. */
  ghost predicate AgedUpTo(t0: map<Handle, Task>, t: map<Handle, Task>, q: seq<Handle>, at: nat, steps: nat)
    requires at < |q|
  {
    forall i :: 0 <= i < |q| && i != at ==>
      q[i] in t0 && q[i] in t &&
      t[q[i]] == if Steps(at, i, |q|) < steps then AgeTask(t0[q[i]]) else t0[q[i]]
  }

  /** Ageing the task at the next position of the walk advances AgedUpTo by one step. */
  lemma AgedUpToStep(t0: map<Handle, Task>, t: map<Handle, Task>, q: seq<Handle>, at: nat, steps: nat, j: nat)
    requires at < |q| && j < |q| && j != at && NoDup(q)
    requires AgedUpTo(t0, t, q, at, steps) && Steps(at, j, |q|) == steps
    ensures AgedUpTo(t0, t[q[j] := AgeTask(t[q[j]])], q, at, steps + 1)
  {
    var t' := t[q[j] := AgeTask(t[q[j]])];
    forall i | 0 <= i < |q| && i != at
      ensures q[i] in t0 && q[i] in t' &&
        t'[q[i]] == if Steps(at, i, |q|) < steps + 1 then AgeTask(t0[q[i]]) else t0[q[i]]
    {
      if i != j {
        assert q[i] != q[j];
      }
    }
  }

  /** One passed-over task after task_get_old. */
  function AgeTask(t: Task): Task {
    t.(prioDinam := AgedPrio(t.prioDinam))
  }

  // ---------------------------------------------------------------------
  // What the state changes promise, as properties of the transition functions.

  /** Exactly one descriptor, c, is EXECUTANDO. */
  ghost predicate OneRunning(tasks: map<Handle, Task>, c: Handle) {
    c in tasks && forall h :: h in tasks ==> (tasks[h].status == Executando <==> h == c)
  }

  /** task_switch hands the single EXECUTANDO status from the outgoing task
      to the target, whichever class the outgoing task belongs to. */
  lemma SwitchKeepsOneRunning(tasks: map<Handle, Task>, last: Handle, h: Handle)
    requires OneRunning(tasks, last) && h in tasks
    ensures OneRunning(SwitchTasks(tasks, last, h), h)
  {
    var t := SwitchTasks(tasks, last, h);
    forall g | g in t
      ensures t[g].status == Executando <==> g == h
    {
      if g != h && g != last {
        assert t[g] == tasks[g].(contadorProcesso := t[g].contadorProcesso);
      }
    }
  }

  /** task_exit hands it from the exiting task to the successor. */
  lemma ExitKeepsOneRunning(tasks: map<Handle, Task>, last: Handle, succ: Handle)
    requires OneRunning(tasks, last) && succ in tasks
    ensures OneRunning(ExitTasks(tasks, last, succ), succ)
  {
  }

  /** Right after pingpong_init no descriptor is EXECUTANDO, so the "exactly
      one running task" invariant does not hold for any task. */
  lemma InitialStateHasNoRunningTask()
    ensures forall h :: h in InitialTasks() ==> InitialTasks()[h].status != Executando
    ensures forall c :: !OneRunning(InitialTasks(), c)
  {
    forall c ensures !OneRunning(InitialTasks(), c) {
      if c in InitialTasks() {
        assert InitialTasks()[c].status != Executando;
      }
    }
  }

  /** task_suspend(t, &q) followed by task_resume(t): t is PRONTO, linked
      into the ready queue as its last element and out of q, keeps both
      priorities, and no other descriptor changes. */
  lemma SuspendResumeRoundTrip(tasks: map<Handle, Task>, queues: map<QueueId, seq<Handle>>, t: Handle, q: QueueId)
    requires WellFormed(tasks, queues) && t in tasks && q != ReadyQueue
    ensures var t1 := SuspendTasks(tasks, t, Some(q));
      var q1 := SuspendQueues(tasks, queues, t, Some(q));
      var t2 := ReadyTasks(t1, t);
      var q2 := ReadyQueues(t1, q1, t);
      WellFormed(t2, q2) &&
      t2[t].status == Pronto && t2[t].fila == Some(ReadyQueue) &&
      t2[t].prioEstat == tasks[t].prioEstat && t2[t].prioDinam == tasks[t].prioDinam &&
      q in q2 && t !in q2[q] &&
      q2[ReadyQueue] != [] && q2[ReadyQueue][|q2[ReadyQueue]| - 1] == t &&
      (forall h :: h in tasks && h != t ==> t2[h] == tasks[h])
  {
    var t1 := SuspendTasks(tasks, t, Some(q));
    var q1 := SuspendQueues(tasks, queues, t, Some(q));
    SuspendKeepsWellFormed(tasks, queues, t, Some(q));
    ReadyKeepsWellFormed(t1, q1, t);
    var q2 := ReadyQueues(t1, q1, t);
    assert q1[q] == QueueOr(Detach(queues, tasks[t].fila, t), q) + [t];
    assert q2 == Detach(q1, Some(q), t)[ReadyQueue := QueueOr(Detach(q1, Some(q), t), ReadyQueue) + [t]];
    assert q2[q] == Remove(q1[q], t);
  }

  /** In this version task_suspend(NULL, &q) by a user task does not stick:
      the switch to the dispatcher that ends it puts the task back into the
      ready queue as PRONTO and takes it out of q. */
  lemma SelfSuspendUndone(tasks: map<Handle, Task>, queues: map<QueueId, seq<Handle>>, w: Handle, q: QueueId)
    requires WellFormed(tasks, queues) && w in tasks && DispatcherH in tasks && w != DispatcherH
    requires tasks[w].owner == Usuario && q != ReadyQueue
    ensures var t1 := SuspendTasks(tasks, w, Some(q));
      var q1 := SuspendQueues(tasks, queues, w, Some(q));
      var t2 := SwitchTasks(t1, w, DispatcherH);
      var q2 := SwitchQueues(t1, q1, w, DispatcherH);
      t2[w].status == Pronto && t2[w].fila == Some(ReadyQueue) &&
      w in q2[ReadyQueue] && q in q2 && w !in q2[q]
  {
    var t1 := SuspendTasks(tasks, w, Some(q));
    var q1 := SuspendQueues(tasks, queues, w, Some(q));
    SuspendResumeRoundTrip(tasks, queues, w, q);
    var tr := ReadyTasks(t1, w);
    var qr := ReadyQueues(t1, q1, w);
    assert SwitchQueues(t1, q1, w, DispatcherH) == ExecQueues(tr, qr, DispatcherH);
    assert w in qr[ReadyQueue];
  }

  // ---------------------------------------------------------------------
  // Initialisation and the dispatcher's environment.

  /** The descriptors pingpong_init leaves behind: main (id 0, one
      activation) and the dispatcher (created as a user task, then relabelled
      a system task with id -1), both PRONTO and linked into the ready queue. */
  function InitialTasks(): map<Handle, Task> {
    map[MainH := Task(0, Pronto, Usuario, None, Some(ReadyQueue), STANDARD_PRIO, STANDARD_PRIO, 0, 0, 1),
        DispatcherH := Task(DISPATCHER_ID, Pronto, Sistema, Some(MainH), Some(ReadyQueue), STANDARD_PRIO, STANDARD_PRIO, 0, 0, 0)]
  }

  /** The initial state keeps the bookkeeping and the roles. */
  lemma InitialStateValid()
    ensures WellFormed(InitialTasks(), map[ReadyQueue := [MainH, DispatcherH]])
    ensures Roles(InitialTasks())
  {
    var q := [MainH, DispatcherH];
    assert forall h :: h in q <==> h == MainH || h == DispatcherH;
  }

  /** What one dispatched task does before control comes back to the
      dispatcher; task bodies are code outside the kernel, so the dispatcher
      is given them as a script. */
  datatype Action =
    | YieldAction                 // task_yield
    | ExitAction(code: int)       // task_exit(code)
    | SuspendSelf(q: QueueId)     // task_suspend(NULL, &q)
    | Preempted                   // runs until the timer takes the processor away

  /** Why dispatcher_body's loop ended. */
  datatype Outcome = AllDone | NothingReady | OutOfActivity

  // ---------------------------------------------------------------------
  // The kernel's global state and its operations.

  class Kernel {
    var tasks: map<Handle, Task>
    var queues: map<QueueId, seq<Handle>>
    var current: Handle
    var userTasks: int
    var idCount: int
    var quantumCount: int
    var sysClockMs: nat

    /** The bookkeeping every helper keeps, also while initialising. */
    ghost predicate Sound()
      reads this
    {
      WellFormed(tasks, queues) && current in tasks
    }

    /** The roles fixed by pingpong_init: main and the dispatcher exist, the
        dispatcher is the only system task and the only one with id -1. */
    ghost predicate Valid()
      reads this
    {
      Sound() && Roles(tasks) && idCount >= 0
    }

    /** The descriptor a call addresses: the given one, or the current task for NULL. */
    function Target(t: Option<Handle>): Handle
      reads this
    {
      if t.Some? then t.value else current
    }

    /** task_set_ready; always returns 0. */
    method SetReady(h: Handle) returns (rc: int)
      requires WellFormed(tasks, queues) && h in tasks
      modifies this
      ensures rc == 0
      ensures tasks == ReadyTasks(old(tasks), h) && queues == ReadyQueues(old(tasks), old(queues), h)
      ensures WellFormed(tasks, queues)
      ensures current == old(current) && userTasks == old(userTasks) && idCount == old(idCount)
      ensures quantumCount == old(quantumCount) && sysClockMs == old(sysClockMs)
    {
      ReadyKeepsWellFormed(tasks, queues, h);
      var t := tasks[h].(status := Pronto);
      if t.fila.Some? {
        queues := queues[t.fila.value := Remove(queues[t.fila.value], h)];
      }
      queues := queues[ReadyQueue := queues[ReadyQueue] + [h]];
      tasks := tasks[h := t.(fila := Some(ReadyQueue))];
      rc := 0;
    }

    /** task_set_executing; always returns 0. */
    method SetExecuting(h: Handle) returns (rc: int)
      requires WellFormed(tasks, queues) && h in tasks
      modifies this
      ensures rc == 0
      ensures tasks == ExecTasks(old(tasks), h) && queues == ExecQueues(old(tasks), old(queues), h)
      ensures WellFormed(tasks, queues)
      ensures current == old(current) && userTasks == old(userTasks) && idCount == old(idCount)
      ensures quantumCount == old(quantumCount) && sysClockMs == old(sysClockMs)
    {
      ExecKeepsWellFormed(tasks, queues, h);
      var t := tasks[h].(status := Executando);
      if t.fila.Some? {
        queues := queues[t.fila.value := Remove(queues[t.fila.value], h)];
        t := t.(fila := None);
      }
      tasks := tasks[h := t];
      rc := 0;
    }

    /** task_getprio. */
    function GetPrio(t: Option<Handle>): int
      reads this
      requires Target(t) in tasks
    {
      tasks[Target(t)].prioEstat
    }

    /** task_get_dinamic_prio. */
    function GetDinamicPrio(t: Option<Handle>): int
      reads this
      requires Target(t) in tasks
    {
      tasks[Target(t)].prioDinam
    }

    /** task_set_dinamic_prio: writes the clamped value. */
    method SetDinamicPrio(t: Option<Handle>, prio: int)
      requires WellFormed(tasks, queues) && Target(t) in tasks
      modifies this
      ensures WellFormed(tasks, queues)
      ensures tasks == old(tasks)[old(Target(t)) := old(tasks)[old(Target(t))].(prioDinam := Clamp(prio))]
      ensures queues == old(queues) && current == old(current) && userTasks == old(userTasks)
      ensures GetDinamicPrio(t) == Clamp(prio)
      ensures idCount == old(idCount) && quantumCount == old(quantumCount) && sysClockMs == old(sysClockMs)
    {
      var h := Target(t);
      var p := ClampPrio(prio);
      UpdateKeepsWellFormed(tasks, queues, h, tasks[h].(prioDinam := p));
      tasks := tasks[h := tasks[h].(prioDinam := p)];
    }

    /** task_setprio: the clamped value becomes both the static and the
        dynamic priority, so task_getprio then returns it. */
    method SetPrio(t: Option<Handle>, prio: int)
      requires WellFormed(tasks, queues) && Target(t) in tasks
      modifies this
      ensures WellFormed(tasks, queues)
      ensures tasks == old(tasks)[old(Target(t)) := old(tasks)[old(Target(t))].(prioEstat := Clamp(prio), prioDinam := Clamp(prio))]
      ensures queues == old(queues) && current == old(current) && userTasks == old(userTasks)
      ensures GetPrio(t) == Clamp(prio) && GetDinamicPrio(t) == Clamp(prio)
      ensures idCount == old(idCount) && quantumCount == old(quantumCount) && sysClockMs == old(sysClockMs)
    {
      var h := Target(t);
      var p := ClampPrio(prio);
      UpdateKeepsWellFormed(tasks, queues, h, tasks[h].(prioEstat := p));
      tasks := tasks[h := tasks[h].(prioEstat := p)];
      SetDinamicPrio(Some(h), p);
    }

    /** task_alpha_dinamic_prio: adds alpha to the dynamic priority, clamped. */
    method AlphaDinamicPrio(t: Option<Handle>, alpha: int)
      requires WellFormed(tasks, queues) && Target(t) in tasks
      modifies this
      ensures WellFormed(tasks, queues)
      ensures tasks == old(tasks)[old(Target(t)) := old(tasks)[old(Target(t))].(prioDinam := AddAlpha(old(GetDinamicPrio(t)), alpha))]
      ensures queues == old(queues) && current == old(current) && userTasks == old(userTasks)
      ensures InRange(GetDinamicPrio(t))
      ensures idCount == old(idCount) && quantumCount == old(quantumCount) && sysClockMs == old(sysClockMs)
    {
      var h := Target(t);
      var novo := tasks[h].prioDinam + alpha;
      var p;
      if novo > PRIO_MIN {
        p := PRIO_MIN;
      } else if novo < PRIO_MAX {
        p := PRIO_MAX;
      } else {
        p := novo;
      }
      UpdateKeepsWellFormed(tasks, queues, h, tasks[h].(prioDinam := p));
      tasks := tasks[h := tasks[h].(prioDinam := p)];
    }

    /** task_get_old: ages every other member of the list the excluded task
        is linked into; a task given as NULL or linked into no list ages nobody. */
    method TaskGetOld(t: Option<Handle>)
      requires WellFormed(tasks, queues) && (t.Some? ==> t.value in tasks)
      modifies this
      ensures WellFormed(tasks, queues)
      ensures t.None? || old(tasks)[t.value].fila.None? ==> tasks == old(tasks)
      ensures t.Some? && old(tasks)[t.value].fila.Some? ==>
        var q := old(queues)[old(tasks)[t.value].fila.value];
        tasks.Keys == old(tasks).Keys &&
        forall h :: h in old(tasks) ==>
          tasks[h] == if h in q && h != t.value then AgeTask(old(tasks)[h]) else old(tasks)[h]
      ensures queues == old(queues) && current == old(current) && userTasks == old(userTasks)
      ensures idCount == old(idCount) && quantumCount == old(quantumCount) && sysClockMs == old(sysClockMs)
    {
      if t.None? {
        return;
      }
      var w := t.value;
      if tasks[w].fila.None? {
        return;
      }
      var q := queues[tasks[w].fila.value];
      var at := IndexOf(q, w);
      ghost var t0 := tasks;
      AgeRing(q, at);
      forall h | h in t0
        ensures tasks[h] == if h in q && h != w then AgeTask(t0[h]) else t0[h]
      {
        if h in q && h != w {
          var i := IndexOf(q, h);
        }
      }
    }

    /** The body of task_get_old's loop for one passed-over task. */
    method AgeOne(it: Handle)
      requires WellFormed(tasks, queues) && it in tasks
      modifies this
      ensures WellFormed(tasks, queues)
      ensures tasks == old(tasks)[it := AgeTask(old(tasks)[it])]
      ensures queues == old(queues) && current == old(current) && userTasks == old(userTasks)
      ensures idCount == old(idCount) && quantumCount == old(quantumCount) && sysClockMs == old(sysClockMs)
    {
      var prio := GetDinamicPrio(Some(it));
      if Between(PRIO_MAX, prio, PRIO_MIN) {
        AlphaDinamicPrio(Some(it), ALPHA);
      }
    }

    /** The loop of task_get_old: walks the circular list q once, starting
        after position `at` and stopping on coming back to it, and lowers by
        ALPHA each dynamic priority strictly between PRIO_MAX and PRIO_MIN. */
    method AgeRing(q: seq<Handle>, at: nat)
      requires WellFormed(tasks, queues) && at < |q| && NoDup(q)
      requires forall h :: h in q ==> h in tasks
      modifies this
      ensures WellFormed(tasks, queues) && tasks.Keys == old(tasks).Keys
      ensures forall i :: 0 <= i < |q| && i != at ==> tasks[q[i]] == AgeTask(old(tasks)[q[i]])
      ensures forall h :: h in old(tasks) && (h !in q || h == q[at]) ==> tasks[h] == old(tasks)[h]
      ensures queues == old(queues) && current == old(current) && userTasks == old(userTasks)
      ensures idCount == old(idCount) && quantumCount == old(quantumCount) && sysClockMs == old(sysClockMs)
    {
      var n := |q|;
      var j := if at + 1 == n then 0 else at + 1;
      var steps := 1;
      while j != at
        invariant 1 <= steps <= n && j < n
        invariant j == if at + steps < n then at + steps else at + steps - n
        invariant WellFormed(tasks, queues) && tasks.Keys == old(tasks).Keys
        invariant AgedUpTo(old(tasks), tasks, q, at, steps)
        invariant forall h :: h in old(tasks) && (h !in q || h == q[at]) ==> tasks[h] == old(tasks)[h]
        invariant queues == old(queues) && current == old(current) && userTasks == old(userTasks)
        invariant idCount == old(idCount) && quantumCount == old(quantumCount) && sysClockMs == old(sysClockMs)
        decreases n - steps
      {
        var it := q[j];
        assert it != q[at];
        AgedUpToStep(old(tasks), tasks, q, at, steps, j);
        AgeOne(it);
        j := if j + 1 == n then 0 else j + 1;
        steps := steps + 1;
      }
    }

    /** scheduler: on a non-empty ready queue, picks the first task of least
        dynamic priority, ages every other member, and resets the winner's
        dynamic priority to its static priority.  Queue contents and order,
        and every static priority, stay as they were. */
    method Scheduler() returns (next: Option<Handle>, ghost at: nat)
      requires WellFormed(tasks, queues)
      modifies this
      ensures WellFormed(tasks, queues)
      ensures next.None? <==> old(queues)[ReadyQueue] == []
      ensures next.None? ==> tasks == old(tasks)
      ensures next.Some? ==>
        var q := old(queues)[ReadyQueue];
        var w := next.value;
        at < |q| && q[at] == w && IsFirstMinAt(q, old(tasks), at) &&
        tasks.Keys == old(tasks).Keys &&
        tasks[w] == old(tasks)[w].(prioDinam := old(tasks)[w].prioEstat) &&
        (forall h :: h in old(tasks) && h in q && h != w ==> tasks[h] == AgeTask(old(tasks)[h])) &&
        (forall h :: h in old(tasks) && h !in q ==> tasks[h] == old(tasks)[h])
      ensures queues == old(queues) && current == old(current) && userTasks == old(userTasks)
      ensures idCount == old(idCount) && quantumCount == old(quantumCount) && sysClockMs == old(sysClockMs)
    {
      if queues[ReadyQueue] == [] {
        return None, 0;
      }
      ghost var t0, q := tasks, queues[ReadyQueue];
      next, at := PrioridadeMax(Some(queues[ReadyQueue]), tasks);
      ghost var w := next.value;
      assert tasks[w].fila == Some(ReadyQueue);
      TaskGetOld(next);
      ghost var t1 := tasks;
      SetDinamicPrio(next, GetPrio(next));
      forall h | h in t0 && h in q && h != w
        ensures tasks[h] == AgeTask(t0[h])
      {
        assert tasks[h] == t1[h];
      }
      forall h | h in t0 && h !in q
        ensures tasks[h] == t0[h]
      {
        assert tasks[h] == t1[h];
      }
    }
  
    /** The status changes of a switch from `last` to h, before the count. */
    method HandOver(last: Handle, h: Handle)
      requires WellFormed(tasks, queues) && last in tasks && h in tasks
      modifies this
      ensures tasks == HandOverTasks(old(tasks), last, h)
      ensures queues == SwitchQueues(old(tasks), old(queues), last, h)
      ensures current == old(current) && userTasks == old(userTasks) && idCount == old(idCount)
      ensures quantumCount == old(quantumCount) && sysClockMs == old(sysClockMs)
    {
      if tasks[last].owner == Usuario {
        var r1 := SetReady(last);
        var r2 := SetExecuting(h);
      } else {
        tasks := tasks[last := tasks[last].(status := Pronto)];
        tasks := tasks[h := tasks[h].(status := Executando)];
      }
    }

    /** The context switch proper, from the current task to h. */
    method SwitchTo(h: Handle)
      requires Sound() && h in tasks
      modifies this
      ensures Sound() && current == h && quantumCount == QUANTUM
      ensures tasks == SwitchTasks(old(tasks), old(current), h)
      ensures queues == SwitchQueues(old(tasks), old(queues), old(current), h)
      ensures userTasks == old(userTasks) && idCount == old(idCount) && sysClockMs == old(sysClockMs)
    {
      SwitchKeepsWellFormed(tasks, queues, current, h);
      var last := current;
      HandOver(last, h);
      current := h;
      quantumCount := QUANTUM;
      tasks := tasks[current := tasks[current].(contadorProcesso := tasks[current].contadorProcesso + 1)];
    }

    /** task_switch: NULL is refused with -1 and nothing changes; otherwise
        the target becomes the current task, the outgoing user task goes back
        to the ready queue, the quantum is refilled and the target's
        activation count goes up. */
    method Switch(t: Option<Handle>) returns (rc: int)
      requires Sound() && (t.Some? ==> t.value in tasks)
      modifies this
      ensures Sound() && (old(Valid()) ==> Valid())
      ensures t.None? ==> (rc == -1 && tasks == old(tasks) && queues == old(queues) &&
                           current == old(current) && quantumCount == old(quantumCount))
      ensures t.Some? ==> (rc == 0 && current == t.value && quantumCount == QUANTUM &&
                           tasks == SwitchTasks(old(tasks), old(current), t.value) &&
                           queues == SwitchQueues(old(tasks), old(queues), old(current), t.value))
      ensures old(OneRunning(tasks, current)) ==> OneRunning(tasks, current)
      ensures userTasks == old(userTasks) && idCount == old(idCount) && sysClockMs == old(sysClockMs)
    {
      if t.None? {
        return -1;
      }
      ghost var t0 := tasks;
      if OneRunning(t0, current) {
        SwitchKeepsOneRunning(t0, current, t.value);
      }
      SwitchTo(t.value);
      SwitchKeepsRoles(t0, old(current), t.value);
      if old(Valid()) {
        RolesCarry(t0, tasks);
      }
      rc := 0;
    }

    /** task_id. */
    function TaskId(): int
      reads this
      requires current in tasks
    {
      tasks[current].id
    }

    /** systime. */
    function Systime(): nat
      reads this
    {
      sysClockMs
    }

    /** task_exit: the current task is FINALIZADO; control goes to main when
        the dispatcher (id -1) exits, otherwise to the dispatcher, and then
        the count of user tasks drops by one.  A user-owned successor is
        also unlinked from its queue. */
    method Exit(exitCode: int)
      requires Valid()
      modifies this
      ensures Valid()
      ensures var last := old(current);
        var succ := if old(tasks)[last].id == DISPATCHER_ID then MainH else DispatcherH;
        current == succ &&
        userTasks == (if succ == DispatcherH then old(userTasks) - 1 else old(userTasks)) &&
        tasks == ExitTasks(old(tasks), last, succ) && queues == ExitQueues(old(tasks), old(queues), last, succ)
      ensures old(OneRunning(tasks, current)) ==> OneRunning(tasks, current)
      ensures idCount == old(idCount) && quantumCount == old(quantumCount) && sysClockMs == old(sysClockMs)
    {
      ghost var t0 := tasks;
      var last := current;
      if OneRunning(t0, last) {
        ExitKeepsOneRunning(t0, last, if t0[last].id == DISPATCHER_ID then MainH else DispatcherH);
      }
      if tasks[last].id == DISPATCHER_ID {
        current := MainH;
      } else {
        current := DispatcherH;
        userTasks := userTasks - 1;
      }
      MarkStatus(last, Finalizado);
      if tasks[current].owner == Usuario {
        ghost var t1 := tasks;
        var rc := SetExecuting(current);
        assert SameRoles(t1, tasks);
        RolesCarry(t1, tasks);
      } else {
        MarkStatus(current, Executando);
      }
    }

    /** A bare status assignment, as task_exit writes it. */
    method MarkStatus(h: Handle, st: Status)
      requires Sound() && h in tasks
      modifies this
      ensures Sound() && (old(Valid()) ==> Valid())
      ensures tasks == old(tasks)[h := old(tasks)[h].(status := st)]
      ensures queues == old(queues) && current == old(current) && userTasks == old(userTasks) && idCount == old(idCount)
      ensures quantumCount == old(quantumCount) && sysClockMs == old(sysClockMs)
    {
      ghost var t0 := tasks;
      UpdateKeepsWellFormed(tasks, queues, h, tasks[h].(status := st));
      tasks := tasks[h := tasks[h].(status := st)];
      assert SameRoles(t0, tasks);
      if old(Valid()) {
        RolesCarry(t0, tasks);
      }
    }

    /** task_create: NULL is refused with -1 and nothing changes.  Otherwise
        the descriptor gets the next id, the current task as parent, default
        priorities and zeroed accounting; it is a user task, so the user task
        count goes up and it is appended, PRONTO, to the ready queue. */
    method Create(t: Option<Handle>) returns (id: int)
      requires Sound() && (t.Some? ==> Creatable(tasks, t.value))
      modifies this
      ensures Sound() && (old(Valid()) && t != Some(DispatcherH) ==> Valid())
      ensures t.None? ==> (id == -1 && tasks == old(tasks) && queues == old(queues) &&
                           userTasks == old(userTasks) && idCount == old(idCount))
      ensures t.Some? ==> (id == old(idCount) && idCount == old(idCount) + 1 && userTasks == old(userTasks) + 1 &&
                           tasks == old(tasks)[t.value := Task(old(idCount), Pronto, Usuario, Some(old(current)),
                                                               Some(ReadyQueue), STANDARD_PRIO, STANDARD_PRIO,
                                                               old(sysClockMs), 0, 0)] &&
                           queues == old(queues)[ReadyQueue := old(queues)[ReadyQueue] + [t.value]])
      ensures current == old(current) && quantumCount == old(quantumCount) && sysClockMs == old(sysClockMs)
    {
      if t.None? {
        return -1;
      }
      var h := t.value;
      ghost var t0, valid := tasks, Valid();
      InitDescriptor(h);
      userTasks := userTasks + 1;
      ghost var t1, qs1 := tasks, queues;
      var rc := SetReady(h);
      assert tasks == t1[h := t1[h].(status := Pronto, fila := Some(ReadyQueue))];
      assert queues == qs1[ReadyQueue := qs1[ReadyQueue] + [h]];
      id := tasks[h].id;
      if valid && h != DispatcherH {
        AddUserKeepsRoles(t0, h, tasks[h]);
      }
    }

    /** The first part of task_create: a NOVO user descriptor in no queue
        with the next id, the current task as parent, the creation time and
        default priorities, set again through task_setprio and
        task_set_dinamic_prio. */
    method InitDescriptor(h: Handle)
      requires Sound() && Creatable(tasks, h)
      modifies this
      ensures Sound()
      ensures tasks == old(tasks)[h := Task(old(idCount), Novo, Usuario, Some(old(current)), None,
                                            STANDARD_PRIO, STANDARD_PRIO, old(sysClockMs), 0, 0)]
      ensures idCount == old(idCount) + 1
      ensures queues == old(queues) && current == old(current) && userTasks == old(userTasks)
      ensures quantumCount == old(quantumCount) && sysClockMs == old(sysClockMs)
    {
      var task := Task(idCount, Novo, Usuario, Some(current), None, STANDARD_PRIO, STANDARD_PRIO, sysClockMs, 0, 0);
      if h in tasks {
        UpdateKeepsWellFormed(tasks, queues, h, task);
      } else {
        AddTaskKeepsWellFormed(tasks, queues, h, task);
      }
      idCount := idCount + 1;
      tasks := tasks[h := task];
      SetPrio(Some(h), STANDARD_PRIO);
      SetDinamicPrio(Some(h), GetPrio(Some(h)));
    }

    /** The part of task_suspend before its final switch: SUSPENSO, and
        moved to the tail of q when a queue is given. */
    method SuspendIn(w: Handle, q: Option<QueueId>)
      requires WellFormed(tasks, queues) && w in tasks
      modifies this
      ensures tasks == SuspendTasks(old(tasks), w, q) && queues == SuspendQueues(old(tasks), old(queues), w, q)
      ensures current == old(current) && userTasks == old(userTasks) && idCount == old(idCount)
      ensures quantumCount == old(quantumCount) && sysClockMs == old(sysClockMs)
    {
      tasks := tasks[w := tasks[w].(status := Suspenso)];
      if q.Some? {
        if tasks[w].fila.Some? {
          queues := queues[tasks[w].fila.value := Remove(queues[tasks[w].fila.value], w)];
        }
        queues := queues[q.value := QueueOr(queues, q.value) + [w]];
        tasks := tasks[w := tasks[w].(fila := q)];
      }
    }

    /** task_suspend: the task (the current one for NULL) becomes SUSPENSO;
        given a queue, it moves from its queue to that queue's tail.  For
        NULL it then switches to the dispatcher, and that switch puts a
        user task straight back into the ready queue as PRONTO. */
    method Suspend(t: Option<Handle>, q: Option<QueueId>)
      requires Valid() && (t.Some? ==> t.value in tasks)
      modifies this
      ensures Valid()
      ensures var w := if t.Some? then t.value else old(current);
        var t1 := SuspendTasks(old(tasks), w, q);
        var q1 := SuspendQueues(old(tasks), old(queues), w, q);
        (t.Some? ==> (tasks == t1 && queues == q1 && current == old(current) && quantumCount == old(quantumCount))) &&
        (t.None? ==> (current == DispatcherH && quantumCount == QUANTUM &&
                      tasks == SwitchTasks(t1, w, DispatcherH) && queues == SwitchQueues(t1, q1, w, DispatcherH)))
      ensures userTasks == old(userTasks) && idCount == old(idCount) && sysClockMs == old(sysClockMs)
    {
      ghost var t0 := tasks;
      var w := if t.Some? then t.value else current;
      SuspendKeepsWellFormed(tasks, queues, w, q);
      SuspendIn(w, q);
      assert SameRoles(t0, tasks);
      RolesCarry(t0, tasks);
      if t.None? {
        var rc := Switch(Some(DispatcherH));
      }
    }

    /** task_resume: task_set_ready on the task. */
    method Resume(h: Handle)
      requires Valid() && h in tasks
      modifies this
      ensures Valid()
      ensures tasks == ReadyTasks(old(tasks), h) && queues == ReadyQueues(old(tasks), old(queues), h)
      ensures current == old(current) && userTasks == old(userTasks) && idCount == old(idCount)
      ensures quantumCount == old(quantumCount) && sysClockMs == old(sysClockMs)
    {
      ghost var t0 := tasks;
      var rc := SetReady(h);
      assert SameRoles(t0, tasks);
      RolesCarry(t0, tasks);
    }

    /** task_yield: a switch to the dispatcher. */
    method Yield()
      requires Valid()
      modifies this
      ensures Valid()
      ensures current == DispatcherH && quantumCount == QUANTUM
      ensures tasks == SwitchTasks(old(tasks), old(current), DispatcherH)
      ensures queues == SwitchQueues(old(tasks), old(queues), old(current), DispatcherH)
      ensures userTasks == old(userTasks) && idCount == old(idCount) && sysClockMs == old(sysClockMs)
    {
      var rc := Switch(Some(DispatcherH));
    }

    /** timer_tick as one synchronous step: the clock and the current task's
        CPU time go up by one; for a user task the quantum counter is
        decremented, and a counter that was already 0 (`!quantum_count--`)
        forces a switch to the dispatcher. */
    method TimerTick()
      requires Valid()
      modifies this
      ensures Valid()
      ensures sysClockMs == old(sysClockMs) + 1
      ensures var c := old(current);
        var tk := Charge(old(tasks), c, 1);
        var preempt := old(tasks)[c].owner == Usuario && old(quantumCount) == 0;
        (preempt ==> (current == DispatcherH && quantumCount == QUANTUM &&
                      tasks == SwitchTasks(tk, c, DispatcherH) && queues == SwitchQueues(tk, old(queues), c, DispatcherH))) &&
        (!preempt ==> (current == c && tasks == tk && queues == old(queues) &&
                       quantumCount == if old(tasks)[c].owner == Usuario then old(quantumCount) - 1 else old(quantumCount)))
      ensures userTasks == old(userTasks) && idCount == old(idCount)
    {
      ghost var t0 := tasks;
      sysClockMs := sysClockMs + 1;
      tasks := Charge(tasks, current, 1);
      SameFilasKeepWellFormed(t0, tasks, queues);
      assert SameRoles(t0, tasks);
      RolesCarry(t0, tasks);
      if tasks[current].owner == Usuario {
        var expired := quantumCount == 0;
        quantumCount := quantumCount - 1;
        if expired {
          var rc := Switch(Some(DispatcherH));
        }
      }
    }

    /** init_tarefa_principal: main gets the next id, no parent, one
        activation and default priorities, counts as a user task and is
        made ready (it is left PRONTO in the ready queue), then becomes the
        current task. */
    method InitTarefaPrincipal()
      requires WellFormed(tasks, queues) && MainH !in tasks
      modifies this
      ensures Sound()
      ensures tasks == old(tasks)[MainH := Task(old(idCount), Pronto, Usuario, None, Some(ReadyQueue),
                                                 STANDARD_PRIO, STANDARD_PRIO, 0, 0, 1)]
      ensures queues == old(queues)[ReadyQueue := old(queues)[ReadyQueue] + [MainH]]
      ensures current == MainH && userTasks == old(userTasks) + 1 && idCount == old(idCount) + 1
      ensures quantumCount == old(quantumCount) && sysClockMs == old(sysClockMs)
    {
      InitMainDescriptor();
      userTasks := userTasks + 1;
      ghost var t1, qs1 := tasks, queues;
      var rc := SetReady(MainH);
      assert tasks == t1[MainH := t1[MainH].(status := Pronto, fila := Some(ReadyQueue))];
      assert queues == qs1[ReadyQueue := qs1[ReadyQueue] + [MainH]];
      current := MainH;
    }

    /** The first part of init_tarefa_principal: main's descriptor, EXECUTANDO
        and in no queue, with the next id and default priorities set again
        through task_setprio and task_set_dinamic_prio. */
    method InitMainDescriptor()
      requires WellFormed(tasks, queues) && MainH !in tasks
      modifies this
      ensures WellFormed(tasks, queues)
      ensures tasks == old(tasks)[MainH := Task(old(idCount), Executando, Usuario, None, None,
                                                 STANDARD_PRIO, STANDARD_PRIO, 0, 0, 1)]
      ensures queues == old(queues) && current == old(current) && userTasks == old(userTasks)
      ensures idCount == old(idCount) + 1 && quantumCount == old(quantumCount) && sysClockMs == old(sysClockMs)
    {
      var main := Task(idCount, Executando, Usuario, None, None, STANDARD_PRIO, STANDARD_PRIO, 0, 0, 1);
      AddTaskKeepsWellFormed(tasks, queues, MainH, main);
      tasks := tasks[MainH := main];
      idCount := idCount + 1;
      SetPrio(Some(MainH), STANDARD_PRIO);
      SetDinamicPrio(Some(MainH), GetPrio(Some(MainH)));
    }

    /** init_dispatcher: task_create on the dispatcher's descriptor (so it
        is counted and queued as a user task), then relabelled a system task
        with id -1. */
    method InitDispatcher()
      requires Sound() && DispatcherH !in tasks
      modifies this
      ensures Sound()
      ensures tasks == old(tasks)[DispatcherH := Task(DISPATCHER_ID, Pronto, Sistema, Some(old(current)), Some(ReadyQueue),
                                                       STANDARD_PRIO, STANDARD_PRIO, old(sysClockMs), 0, 0)]
      ensures queues == old(queues)[ReadyQueue := old(queues)[ReadyQueue] + [DispatcherH]]
      ensures current == old(current) && userTasks == old(userTasks) + 1 && idCount == old(idCount) + 1
      ensures quantumCount == old(quantumCount) && sysClockMs == old(sysClockMs)
    {
      var id := Create(Some(DispatcherH));
      ghost var t1 := tasks;
      tasks := tasks[DispatcherH := tasks[DispatcherH].(owner := Sistema)];
      tasks := tasks[DispatcherH := tasks[DispatcherH].(id := DISPATCHER_ID)];
      SameFilasKeepWellFormed(t1, tasks, queues);
    }

    /** pingpong_init: main, then the dispatcher, then the counters are
        overwritten (one user task, next id 1).  Main is the current task
        but no descriptor is EXECUTANDO. */
    constructor Init()
      ensures Valid()
      ensures tasks == InitialTasks() && queues == map[ReadyQueue := [MainH, DispatcherH]]
      ensures current == MainH && userTasks == 1 && idCount == 1
      ensures quantumCount == 0 && sysClockMs == 0
    {
      tasks := map[];
      queues := map[ReadyQueue := []];
      current := MainH;
      userTasks := 0;
      idCount := 0;
      quantumCount := 0;
      sysClockMs := 0;
      new;
      InitMainAndDispatcher();
      userTasks := 1;
      idCount := 1;
      InitialStateValid();
    }

    /** The two descriptor set-ups of pingpong_init, from the empty state. */
    method InitMainAndDispatcher()
      requires tasks == map[] && queues == map[ReadyQueue := []] && current == MainH
      requires userTasks == 0 && idCount == 0 && quantumCount == 0 && sysClockMs == 0
      modifies this
      ensures tasks == InitialTasks() && queues == map[ReadyQueue := [MainH, DispatcherH]]
      ensures current == MainH && quantumCount == 0 && sysClockMs == 0
    {
      InitTarefaPrincipal();
      assert [] + [MainH] == [MainH];
      InitDispatcher();
      assert [MainH] + [DispatcherH] == [MainH, DispatcherH];
    }

    /** A user task that never gives the processor up: the switch into it
        refilled the counter to QUANTUM, and the timer takes the processor
        away on tick QUANTUM + 1, when the counter is found at 0. */
    method RunToPreemption()
      requires Valid() && tasks[current].owner == Usuario && quantumCount == QUANTUM
      modifies this
      ensures Valid() && current == DispatcherH && quantumCount == QUANTUM
      ensures sysClockMs == old(sysClockMs) + QUANTUM + 1
      ensures var c := old(current);
        var tk := Charge(old(tasks), c, QUANTUM + 1);
        tasks == SwitchTasks(tk, c, DispatcherH) && queues == SwitchQueues(tk, old(queues), c, DispatcherH)
      ensures userTasks == old(userTasks) && idCount == old(idCount)
    {
      var c := current;
      var ticks := 0;
      while current == c
        invariant Valid() && 0 <= ticks <= QUANTUM + 1
        invariant sysClockMs == old(sysClockMs) + ticks
        invariant userTasks == old(userTasks) && idCount == old(idCount)
        invariant current == c ==>
          ticks <= QUANTUM && quantumCount == QUANTUM - ticks && queues == old(queues) &&
          tasks == Charge(old(tasks), c, ticks)
        invariant current != c ==>
          var tk := Charge(old(tasks), c, QUANTUM + 1);
          ticks == QUANTUM + 1 && current == DispatcherH && quantumCount == QUANTUM &&
          tasks == SwitchTasks(tk, c, DispatcherH) && queues == SwitchQueues(tk, old(queues), c, DispatcherH)
        decreases QUANTUM + 1 - ticks
      {
        ChargeTwice(old(tasks), c, ticks);
        TimerTick();
        ticks := ticks + 1;
      }
    }

    /** One dispatched task's turn, from the switch into it until control is
        back with the dispatcher. */
    method Perform(a: Action)
      requires Valid() && current != DispatcherH && quantumCount == QUANTUM
      modifies this
      ensures Valid() && current == DispatcherH
    {
      match a
      case YieldAction => Yield();
      case ExitAction(code) => Exit(code);
      case SuspendSelf(q) => Suspend(None, Some(q));
      case Preempted => RunToPreemption();
    }

    /** One iteration of dispatcher_body's loop: ask the scheduler; when it
        names a task, make it EXECUTANDO and switch to it, and the task then
        does `a` (a round in which the dispatcher picks its own descriptor
        returns at once). */
    method DispatchRound(a: Action) returns (next: Option<Handle>)
      requires Valid() && current == DispatcherH
      modifies this
      ensures Valid() && current == DispatcherH
      ensures next.None? <==> old(queues)[ReadyQueue] == []
      ensures next.Some? ==> next.value in old(queues)[ReadyQueue]
      ensures next.None? ==> tasks == old(tasks) && queues == old(queues) && userTasks == old(userTasks)
    {
      ghost var t1 := tasks;
      ghost var at;
      next, at := Scheduler();
      assert SameRoles(t1, tasks);
      RolesCarry(t1, tasks);
      if next.Some? {
        RunTask(next.value, a);
      }
    }

    /** The dispatcher hands the processor to h: EXECUTANDO, out of its queue,
        switched to, and h then does `a`. */
    method RunTask(h: Handle, a: Action)
      requires Valid() && current == DispatcherH && h in tasks
      modifies this
      ensures Valid() && current == DispatcherH
    {
      var rc := SetExecuting(h);
      assert SameRoles(old(tasks), tasks);
      RolesCarry(old(tasks), tasks);
      rc := Switch(Some(h));
      if current != DispatcherH {
        Perform(a);
      }
    }

    /** dispatcher_body: while user tasks remain, take the scheduler's choice,
        make it EXECUTANDO and switch to it; stop when the ready queue is
        empty; finally task_exit(0), which hands the processor to main.
        `activity[k]` is what the task dispatched in round k does. */
    method DispatcherBody(activity: seq<Action>) returns (outcome: Outcome, rounds: nat)
      requires Valid() && current == DispatcherH
      modifies this
      ensures Valid() && current == MainH
      ensures tasks[DispatcherH].status == Finalizado
      ensures tasks[MainH].status == Executando && tasks[MainH].fila == None
      ensures rounds <= |activity|
      ensures outcome == AllDone ==> userTasks == 0
      ensures outcome == NothingReady ==> userTasks != 0 && queues[ReadyQueue] == []
      ensures outcome == OutOfActivity ==> rounds == |activity|
    {
      ghost var t0 := tasks;
      tasks := tasks[DispatcherH := tasks[DispatcherH].(status := Executando)];
      SameFilasKeepWellFormed(t0, tasks, queues);
      assert SameRoles(t0, tasks);
      RolesCarry(t0, tasks);
      outcome, rounds := AllDone, 0;
      while userTasks != 0
        invariant Valid() && current == DispatcherH && rounds <= |activity|
        invariant outcome == AllDone
        decreases |activity| - rounds
      {
        if rounds == |activity| {
          outcome := OutOfActivity;
          break;
        }
        var next := DispatchRound(activity[rounds]);
        if next.Some? {
          rounds := rounds + 1;
        } else if queues[ReadyQueue] == [] {
          outcome := NothingReady;
          break;
        }
      }
      ghost var ready := queues[ReadyQueue];
      Exit(0);
      assert ready == [] ==> queues[ReadyQueue] == [];
    }
  }
}
