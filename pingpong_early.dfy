/** The earlier PingPongOS kernel (pingpong.c at the top of the repository):
    cooperative scheduling with no timer, tasks told apart by id (0 is main,
    1 the dispatcher, user tasks above 1), and a scheduler that counting-sorts
    the ready queue by dynamic priority and takes its head.  As in module
    PingPong, the globals tarefa_atual, fila_tprontas, userTasks and
    id_count and the descriptors are the fields of class Kernel; a context
    switch is the assignment of `current`. */
module PingPongEarly {
  import opened Common
  import opened Priority
  import opened CountingSort

  /** Arena handles of the two statically allocated descriptors. */
  const MainH: Handle := 0
  const DispatcherH: Handle := 1

  /** The descriptor task_t of datatypes.h without its machine context and
      list links. */
  datatype Task = Task(
    id: int,
    status: Status,
    parent: Option<Handle>,
    fila: Option<QueueId>,
    prioEstat: int,
    prioDinam: int)

  ghost function Filas(tasks: map<Handle, Task>): map<Handle, Option<QueueId>> {
    map h | h in tasks :: tasks[h].fila
  }

  /** Queue bookkeeping and priority ranges, the invariant every operation keeps. */
  ghost predicate WellFormed(tasks: map<Handle, Task>, queues: map<QueueId, seq<Handle>>) {
    ReadyQueue in queues &&
    (forall q :: q in queues ==> NoDup(queues[q])) &&
    (forall q, h :: q in queues && h in queues[q] ==> h in tasks && tasks[h].fila == Some(q)) &&
    (forall h :: h in tasks && tasks[h].fila.Some? ==> tasks[h].fila.value in queues && h in queues[tasks[h].fila.value]) &&
    (forall h :: h in tasks ==> InRange(tasks[h].prioEstat) && InRange(tasks[h].prioDinam))
  }

  /** WellFormed is the shared membership bookkeeping applied to the
      descriptors' membership fields, plus the priority ranges. */
  lemma WellFormedIsLinked(tasks: map<Handle, Task>, queues: map<QueueId, seq<Handle>>)
    ensures WellFormed(tasks, queues) <==>
      ReadyQueue in queues && Linked(Filas(tasks), queues) &&
      (forall h :: h in tasks ==> InRange(tasks[h].prioEstat) && InRange(tasks[h].prioDinam))
  {
    var f := Filas(tasks);
    assert forall h :: h in f <==> h in tasks;
    assert forall h :: h in tasks ==> f[h] == tasks[h].fila;
  }

  lemma FilasUpdate(tasks: map<Handle, Task>, h: Handle, t: Task)
    ensures Filas(tasks[h := t]) == Filas(tasks)[h := t.fila]
  {
  }

  // ---------------------------------------------------------------------
  // The state changes of the internal helpers, as functions of the state.

  /** task_set_ready on the descriptors: PRONTO, member of the ready queue. */
  function ReadyTasks(tasks: map<Handle, Task>, h: Handle): map<Handle, Task>
    requires h in tasks
  {
    tasks[h := tasks[h].(status := Pronto, fila := Some(ReadyQueue))]
  }

  /** task_set_ready on the queues: unlinked from its queue, appended to the ready queue. */
  function ReadyQueues(tasks: map<Handle, Task>, queues: map<QueueId, seq<Handle>>, h: Handle): map<QueueId, seq<Handle>>
    requires h in tasks
  {
    MoveTo(queues, tasks[h].fila, h, ReadyQueue)
  }

  /** task_set_executing on the descriptors: EXECUTANDO, in no queue. */
  function ExecTasks(tasks: map<Handle, Task>, h: Handle): map<Handle, Task>
    requires h in tasks
  {
    tasks[h := tasks[h].(status := Executando, fila := None)]
  }

  /** task_set_executing on the queues: unlinked from its queue. */
  function ExecQueues(tasks: map<Handle, Task>, queues: map<QueueId, seq<Handle>>, h: Handle): map<QueueId, seq<Handle>>
    requires h in tasks
  {
    Detach(queues, tasks[h].fila, h)
  }

  /** task_exit from `last` to its successor: `last` is FINALIZADO and the
      successor EXECUTANDO; no queue is touched. */
  function ExitTasks(tasks: map<Handle, Task>, last: Handle, succ: Handle): map<Handle, Task>
    requires last in tasks && succ in tasks
  {
    var t1 := tasks[last := tasks[last].(status := Finalizado)];
    t1[succ := t1[succ].(status := Executando)]
  }

  /** task_suspend on the descriptors. */
  function SuspendTasks(tasks: map<Handle, Task>, w: Handle, q: Option<QueueId>): map<Handle, Task>
    requires w in tasks
  {
    tasks[w := tasks[w].(status := Suspenso, fila := if q.Some? then q else tasks[w].fila)]
  }

  /** task_suspend on the queues: moved to the tail of q when q is given. */
  function SuspendQueues(tasks: map<Handle, Task>, queues: map<QueueId, seq<Handle>>, w: Handle, q: Option<QueueId>): map<QueueId, seq<Handle>>
    requires w in tasks
  {
    if q.Some? then MoveTo(queues, tasks[w].fila, w, q.value) else queues
  }

  /** The sort key counting_sort reads: each task's dynamic priority. */
  function DinamPrio(tasks: map<Handle, Task>): Handle -> int {
    h => if h in tasks then tasks[h].prioDinam else 0
  }

  /** One passed-over task after task_get_old. */
  function AgeTask(t: Task): Task {
    t.(prioDinam := AgedPrio(t.prioDinam))
  }

  // ---------------------------------------------------------------------
  // Lemmas: every helper keeps the bookkeeping, and what each one promises.

  lemma ReadyKeepsWellFormed(tasks: map<Handle, Task>, queues: map<QueueId, seq<Handle>>, h: Handle)
    requires WellFormed(tasks, queues) && h in tasks
    ensures WellFormed(ReadyTasks(tasks, h), ReadyQueues(tasks, queues, h))
  {
    WellFormedIsLinked(tasks, queues);
    FilasUpdate(tasks, h, tasks[h].(status := Pronto, fila := Some(ReadyQueue)));
    MoveToKeepsLinked(Filas(tasks), queues, h, ReadyQueue);
    WellFormedIsLinked(ReadyTasks(tasks, h), ReadyQueues(tasks, queues, h));
  }

  lemma ExecKeepsWellFormed(tasks: map<Handle, Task>, queues: map<QueueId, seq<Handle>>, h: Handle)
    requires WellFormed(tasks, queues) && h in tasks
    ensures WellFormed(ExecTasks(tasks, h), ExecQueues(tasks, queues, h))
  {
    WellFormedIsLinked(tasks, queues);
    FilasUpdate(tasks, h, tasks[h].(status := Executando, fila := None));
    DetachKeepsLinked(Filas(tasks), queues, h);
    WellFormedIsLinked(ExecTasks(tasks, h), ExecQueues(tasks, queues, h));
  }

  lemma SuspendKeepsWellFormed(tasks: map<Handle, Task>, queues: map<QueueId, seq<Handle>>, w: Handle, q: Option<QueueId>)
    requires WellFormed(tasks, queues) && w in tasks
    ensures WellFormed(SuspendTasks(tasks, w, q), SuspendQueues(tasks, queues, w, q))
  {
    WellFormedIsLinked(tasks, queues);
    var f := if q.Some? then q else tasks[w].fila;
    FilasUpdate(tasks, w, tasks[w].(status := Suspenso, fila := f));
    if q.Some? {
      MoveToKeepsLinked(Filas(tasks), queues, w, q.value);
    } else {
      assert Filas(tasks)[w := tasks[w].fila] == Filas(tasks);
    }
    WellFormedIsLinked(SuspendTasks(tasks, w, q), SuspendQueues(tasks, queues, w, q));
  }

  /** Replacing the ready queue by a reordering of its members, as
      counting_sort does, keeps the bookkeeping. */
  lemma PermuteKeepsWellFormed(tasks: map<Handle, Task>, queues: map<QueueId, seq<Handle>>, s: seq<Handle>)
    requires WellFormed(tasks, queues) && multiset(s) == multiset(queues[ReadyQueue])
    ensures WellFormed(tasks, queues[ReadyQueue := s])
  {
    WellFormedIsLinked(tasks, queues);
    PermuteKeepsLinked(Filas(tasks), queues, ReadyQueue, s);
    WellFormedIsLinked(tasks, queues[ReadyQueue := s]);
  }

  /** The roles fixed by pingpong_init: main has id 0, the dispatcher id 1,
      and every other task an id above 1, which is what makes it a user task. */
  ghost predicate Roles(tasks: map<Handle, Task>) {
    MainH in tasks && DispatcherH in tasks &&
    tasks[MainH].id == 0 && tasks[DispatcherH].id == 1 &&
    (forall h :: h in tasks && h != MainH && h != DispatcherH ==> tasks[h].id > 1)
  }

  /** No descriptor appears or disappears and none changes id. */
  ghost predicate SameRoles(t0: map<Handle, Task>, t1: map<Handle, Task>) {
    t1.Keys == t0.Keys && forall h :: h in t0 ==> t1[h].id == t0[h].id
  }

  lemma RolesCarry(t0: map<Handle, Task>, t1: map<Handle, Task>)
    requires Roles(t0) && SameRoles(t0, t1)
    ensures Roles(t1)
  {
  }

  /** A descriptor task_create can be handed: one the kernel has not seen,
      or one whose task has finished and is linked into no queue.  Every
      field of it is set afresh. */
  ghost predicate Creatable(tasks: map<Handle, Task>, h: Handle) {
    h !in tasks || (tasks[h].status == Finalizado && tasks[h].fila == None)
  }

  /** A fresh descriptor linked into no queue keeps the bookkeeping. */
  lemma AddTaskKeepsWellFormed(tasks: map<Handle, Task>, queues: map<QueueId, seq<Handle>>, h: Handle, t: Task)
    requires WellFormed(tasks, queues) && h !in tasks
    requires t.fila == None && InRange(t.prioEstat) && InRange(t.prioDinam)
    ensures WellFormed(tasks[h := t], queues)
  {
  }

  /** Changing one descriptor's priorities or status keeps the bookkeeping
      as long as its membership field stays. */
  lemma UpdateKeepsWellFormed(tasks: map<Handle, Task>, queues: map<QueueId, seq<Handle>>, h: Handle, t: Task)
    requires WellFormed(tasks, queues) && h in tasks
    requires t.fila == tasks[h].fila && InRange(t.prioEstat) && InRange(t.prioDinam)
    ensures WellFormed(tasks[h := t], queues)
  {
  }

  // ---------------------------------------------------------------------
  // Selection: task_compare and the ageing walk.

  /** task_compare as written: the difference of the dynamic priorities,
      positive when t1 is the LESS urgent task.  counting_sort is handed it
      and never calls it. */
  function TaskCompare(t1: Task, t2: Task): (r: int)
    ensures r > 0 <==> t2.prioDinam < t1.prioDinam
    ensures r < 0 <==> t1.prioDinam < t2.prioDinam
    ensures r == 0 <==> t1.prioDinam == t2.prioDinam
  {
    t1.prioDinam - t2.prioDinam
  }

  /** task_compare's comment promises a positive result when task1 has more
      priority (a smaller number); for the most urgent task against the
      default one the result is negative. */
  lemma TaskCompareSignReversed()
    ensures var urgent := Task(2, Pronto, None, None, PRIO_MAX, PRIO_MAX);
      var standard := Task(3, Pronto, None, None, STANDARD_PRIO, STANDARD_PRIO);
      urgent.prioDinam < standard.prioDinam && TaskCompare(urgent, standard) < 0
  {
  }

  /** w has the smallest dynamic priority in q, and every task before its
      place in q is strictly less urgent: it is the first minimum met from
      the head. */
  ghost predicate IsFirstMin(q: seq<Handle>, tasks: map<Handle, Task>, w: Handle)
    requires forall h :: h in q ==> h in tasks
  {
    w in tasks &&
    (forall h :: h in q ==> tasks[w].prioDinam <= tasks[h].prioDinam) &&
    exists j :: 0 <= j < |q| && q[j] == w && forall i :: 0 <= i < j ==> tasks[q[i]].prioDinam > tasks[w].prioDinam
  }

  /** counting_sort's frequency array has PRIO_MIN - PRIO_MAX slots, one
      too few: a queued task at PRIO_MIN makes it index one past its end. */
  ghost predicate SortOverflows(tasks: map<Handle, Task>, q: seq<Handle>) {
    exists h :: h in q && h in tasks && tasks[h].prioDinam == PRIO_MIN
  }

  /** counting_sort's 40 slots hold the ready queue exactly when no member
      is at PRIO_MIN. */
  lemma OverflowExact(tasks: map<Handle, Task>, q: seq<Handle>)
    requires forall h :: h in q ==> h in tasks && InRange(tasks[h].prioDinam)
    ensures Fits(q, DinamPrio(tasks), ALCANCE) <==> !SortOverflows(tasks, q)
  {
    AlcanceOverflow(q, DinamPrio(tasks));
  }

  /** counting_sort on a ready queue with no member at PRIO_MIN: a
      reordering of its members whose head is the first task of least
      dynamic priority in the old order. */
  lemma SortedHead(tasks: map<Handle, Task>, q: seq<Handle>)
    requires q != [] && forall h :: h in q ==> h in tasks && InRange(tasks[h].prioDinam)
    requires !SortOverflows(tasks, q)
    ensures Fits(q, DinamPrio(tasks), ALCANCE)
    ensures var s := Prefix(q, DinamPrio(tasks), ALCANCE);
      multiset(s) == multiset(q) && s != [] && s[0] in q && IsFirstMin(q, tasks, s[0])
  {
    var prio := DinamPrio(tasks);
    OverflowExact(tasks, q);
    PrefixPermutation(q, prio, ALCANCE);
    HeadIsFirstMin(q, prio, ALCANCE);
    var s := Prefix(q, prio, ALCANCE);
    assert forall h :: h in q ==> prio(h) == tasks[h].prioDinam;
    var j :| 0 <= j < |q| && q[j] == s[0] && forall i :: 0 <= i < j ==> prio(q[i]) > prio(s[0]);
    assert forall i :: 0 <= i < j ==> tasks[q[i]].prioDinam > tasks[s[0]].prioDinam;
  }

  /** What scheduler does to a state whose ready queue is not empty and
      has no member at PRIO_MIN: the
      ready queue is replaced by its counting-sorted version, a reordering of
      the same tasks; its head w is the first task of least dynamic priority
      in the old order; every other member of the ready queue is aged; w's
      dynamic priority goes back to its static one; no other task changes. */
  ghost predicate Scheduled(t0: map<Handle, Task>, queues0: map<QueueId, seq<Handle>>,
                            t1: map<Handle, Task>, queues1: map<QueueId, seq<Handle>>, w: Handle)
    requires WellFormed(t0, queues0)
  {
    var q := queues0[ReadyQueue];
    var s := Prefix(q, DinamPrio(t0), ALCANCE);
    queues1 == queues0[ReadyQueue := s] && s != [] && s[0] == w &&
    multiset(s) == multiset(q) && IsFirstMin(q, t0, w) &&
    t1.Keys == t0.Keys &&
    t1[w] == t0[w].(prioDinam := t0[w].prioEstat) &&
    (forall h :: h in t0 && h in q && h != w ==> t1[h] == AgeTask(t0[h])) &&
    (forall h :: h in t0 && h !in q ==> t1[h] == t0[h])
  }

  /** The head of a non-empty queue is a known descriptor. */
  lemma HeadInTasks(tasks: map<Handle, Task>, queues: map<QueueId, seq<Handle>>, k: QueueId)
    requires WellFormed(tasks, queues) && k in queues && queues[k] != []
    ensures queues[k][0] in tasks && tasks[queues[k][0]].fila == Some(k)
  {
    assert queues[k][0] in queues[k];
  }

  /** The sort, then task_get_old and the reset of the head, make up Scheduled. */
  lemma SchedulerEffect(t0: map<Handle, Task>, queues0: map<QueueId, seq<Handle>>,
                        t1: map<Handle, Task>, queues1: map<QueueId, seq<Handle>>, s: seq<Handle>)
    requires WellFormed(t0, queues0) && queues0[ReadyQueue] != []
    requires !SortOverflows(t0, queues0[ReadyQueue])
    requires s == Prefix(queues0[ReadyQueue], DinamPrio(t0), ALCANCE) && queues1 == queues0[ReadyQueue := s]
    requires s != [] && s[0] in t0 && t1.Keys == t0.Keys
    requires t1[s[0]] == t0[s[0]].(prioDinam := t0[s[0]].prioEstat)
    requires forall h :: h in t0 && h != s[0] ==> t1[h] == if h in s then AgeTask(t0[h]) else t0[h]
    ensures Scheduled(t0, queues0, t1, queues1, s[0])
  {
    var q := queues0[ReadyQueue];
    SortedHead(t0, q);
    assert forall h :: h in s <==> h in multiset(q);
  }

  /** After `steps` steps of the walk round q from position `at`, exactly the
      positions already visited hold aged descriptors. */
  ghost predicate AgedUpTo(t0: map<Handle, Task>, t: map<Handle, Task>, q: seq<Handle>, at: nat, steps: nat)
    requires at < |q|
  {
    forall i :: 0 <= i < |q| && i != at ==>
      q[i] in t0 && q[i] in t &&
      t[q[i]] == if Steps(at, i, |q|) < steps then AgeTask(t0[q[i]]) else t0[q[i]]
  }

  /** Ageing the task at the next position of the walk advances AgedUpTo by one step. */
  lemma AgedUpToStep(t0: map<Handle, Task>, t: map<Handle, Task>, q: seq<Handle>, at: nat, steps: nat, j: nat)
    requires at < |q| && j < |q| && j != at && NoDup(q)
    requires AgedUpTo(t0, t, q, at, steps) && Steps(at, j, |q|) == steps
    ensures AgedUpTo(t0, t[q[j] := AgeTask(t[q[j]])], q, at, steps + 1)
  {
    var t' := t[q[j] := AgeTask(t[q[j]])];
    forall i | 0 <= i < |q| && i != at
      ensures q[i] in t0 && q[i] in t' &&
        t'[q[i]] == if Steps(at, i, |q|) < steps + 1 then AgeTask(t0[q[i]]) else t0[q[i]]
    {
      if i != j {
        assert q[i] != q[j];
      }
    }
  }

  // ---------------------------------------------------------------------
  // What the state changes promise, as properties of the transition functions.

  /** No descriptor other than c is EXECUTANDO. */
  ghost predicate NoneRunningBut(tasks: map<Handle, Task>, c: Handle) {
    forall h :: h in tasks && h != c ==> tasks[h].status != Executando
  }

  /** Exactly one descriptor, c, is EXECUTANDO. */
  ghost predicate OneRunning(tasks: map<Handle, Task>, c: Handle) {
    c in tasks && tasks[c].status == Executando && NoneRunningBut(tasks, c)
  }

  /** task_exit hands the EXECUTANDO status from the exiting task to its successor. */
  lemma ExitKeepsOneRunning(tasks: map<Handle, Task>, last: Handle, succ: Handle)
    requires NoneRunningBut(tasks, last) && last in tasks && succ in tasks && last != succ
    ensures OneRunning(ExitTasks(tasks, last, succ), succ)
  {
  }

  /** task_suspend(NULL, &q) sticks in this version: the task stays
      SUSPENSO, linked into q and out of the ready queue, because the switch
      to the dispatcher that follows changes no status and no queue. */
  lemma SelfSuspendSticks(tasks: map<Handle, Task>, queues: map<QueueId, seq<Handle>>, w: Handle, q: QueueId)
    requires WellFormed(tasks, queues) && w in tasks && q != ReadyQueue
    ensures var t1 := SuspendTasks(tasks, w, Some(q));
      var q1 := SuspendQueues(tasks, queues, w, Some(q));
      t1[w].status == Suspenso && t1[w].fila == Some(q) &&
      q in q1 && w in q1[q] && ReadyQueue in q1 && w !in q1[ReadyQueue]
  {
    var q1 := SuspendQueues(tasks, queues, w, Some(q));
    var d := Detach(queues, tasks[w].fila, w);
    assert q1 == d[q := QueueOr(d, q) + [w]];
    if w in queues[ReadyQueue] {
      assert tasks[w].fila == Some(ReadyQueue);
    }
  }

  /** The descriptors pingpong_init leaves behind: main (id 0) EXECUTANDO and
      the dispatcher (id 1, created by main) PRONTO, neither in a queue. */
  function InitialTasks(): map<Handle, Task> {
    map[MainH := Task(0, Executando, None, None, STANDARD_PRIO, STANDARD_PRIO),
        DispatcherH := Task(1, Pronto, Some(MainH), None, STANDARD_PRIO, STANDARD_PRIO)]
  }

  /** The initial state keeps the bookkeeping and the roles, and unlike the
      current version main is the one EXECUTANDO task. */
  lemma InitialStateValid()
    ensures WellFormed(InitialTasks(), map[ReadyQueue := []])
    ensures Roles(InitialTasks())
    ensures OneRunning(InitialTasks(), MainH)
  {
  }

  /** What one dispatched task does before control comes back to the
      dispatcher; task bodies are code outside the kernel, so the dispatcher
      is given them as a script. */
  datatype Action =
    | YieldAction                 // task_yield
    | ExitAction(code: int)       // task_exit(code)
    | SuspendSelf(q: QueueId)     // task_suspend(NULL, &q)

  /** Why dispatcher_body stopped: its loop ended, or main called task_exit
      and the process ended with that code. */
  datatype Outcome = AllDone | NothingReady | OutOfActivity | ProcessExit(code: int) | SortOverflow

  // ---------------------------------------------------------------------
  // The kernel's global state and its operations.

  class Kernel {
    var tasks: map<Handle, Task>
    var queues: map<QueueId, seq<Handle>>
    var current: Handle
    var userTasks: int
    var idCount: int

    /** The bookkeeping every helper keeps, also while initialising. */
    ghost predicate Sound()
      reads this
    {
      WellFormed(tasks, queues) && current in tasks
    }

    /** The roles fixed by pingpong_init, and ids 0 and 1 handed out. */
    ghost predicate Valid()
      reads this
    {
      Sound() && Roles(tasks) && idCount >= 2
    }

    /** The descriptor a call addresses: the given one, or the current task for NULL. */
    function Target(t: Option<Handle>): Handle
      reads this
    {
      if t.Some? then t.value else current
    }

    /** task_set_ready; always returns 0. */
    method SetReady(h: Handle) returns (rc: int)
      requires WellFormed(tasks, queues) && h in tasks
      modifies this
      ensures rc == 0
      ensures tasks == ReadyTasks(old(tasks), h) && queues == ReadyQueues(old(tasks), old(queues), h)
      ensures WellFormed(tasks, queues)
      ensures current == old(current) && userTasks == old(userTasks) && idCount == old(idCount)
    {
      ReadyKeepsWellFormed(tasks, queues, h);
      var t := tasks[h].(status := Pronto);
      if t.fila.Some? {
        queues := queues[t.fila.value := Remove(queues[t.fila.value], h)];
      }
      queues := queues[ReadyQueue := queues[ReadyQueue] + [h]];
      tasks := tasks[h := t.(fila := Some(ReadyQueue))];
      rc := 0;
    }

    /** task_set_executing; always returns 0. */
    method SetExecuting(h: Handle) returns (rc: int)
      requires WellFormed(tasks, queues) && h in tasks
      modifies this
      ensures rc == 0
      ensures tasks == ExecTasks(old(tasks), h) && queues == ExecQueues(old(tasks), old(queues), h)
      ensures WellFormed(tasks, queues)
      ensures current == old(current) && userTasks == old(userTasks) && idCount == old(idCount)
    {
      ExecKeepsWellFormed(tasks, queues, h);
      var t := tasks[h].(status := Executando);
      if t.fila.Some? {
        queues := queues[t.fila.value := Remove(queues[t.fila.value], h)];
        t := t.(fila := None);
      }
      tasks := tasks[h := t];
      rc := 0;
    }

    /** The direct assignment of a descriptor's status field. */
    method MarkStatus(h: Handle, st: Status)
      requires Sound() && h in tasks
      modifies this
      ensures Sound() && (old(Valid()) ==> Valid())
      ensures tasks == old(tasks)[h := old(tasks)[h].(status := st)]
      ensures queues == old(queues) && current == old(current) && userTasks == old(userTasks) && idCount == old(idCount)
    {
      ghost var t0 := tasks;
      UpdateKeepsWellFormed(tasks, queues, h, tasks[h].(status := st));
      tasks := tasks[h := tasks[h].(status := st)];
      assert SameRoles(t0, tasks);
      if old(Valid()) {
        RolesCarry(t0, tasks);
      }
    }

    /** task_getprio. */
    function GetPrio(t: Option<Handle>): int
      reads this
      requires Target(t) in tasks
    {
      tasks[Target(t)].prioEstat
    }

    /** task_get_dinamic_prio. */
    function GetDinamicPrio(t: Option<Handle>): int
      reads this
      requires Target(t) in tasks
    {
      tasks[Target(t)].prioDinam
    }

    /** task_set_dinamic_prio: writes the clamped value. */
    method SetDinamicPrio(t: Option<Handle>, prio: int)
      requires WellFormed(tasks, queues) && Target(t) in tasks
      modifies this
      ensures WellFormed(tasks, queues)
      ensures tasks == old(tasks)[old(Target(t)) := old(tasks)[old(Target(t))].(prioDinam := Clamp(prio))]
      ensures queues == old(queues) && current == old(current) && userTasks == old(userTasks)
      ensures GetDinamicPrio(t) == Clamp(prio)
      ensures idCount == old(idCount)
    {
      var h := Target(t);
      var p := ClampPrio(prio);
      UpdateKeepsWellFormed(tasks, queues, h, tasks[h].(prioDinam := p));
      tasks := tasks[h := tasks[h].(prioDinam := p)];
    }

    /** task_setprio: the value is clamped, stored as the static priority,
        clamped again and stored as the dynamic priority, so both priorities
        end up as the clamped value. */
    method SetPrio(t: Option<Handle>, prio: int)
      requires WellFormed(tasks, queues) && Target(t) in tasks
      modifies this
      ensures WellFormed(tasks, queues)
      ensures tasks == old(tasks)[old(Target(t)) := old(tasks)[old(Target(t))].(prioEstat := Clamp(prio), prioDinam := Clamp(prio))]
      ensures queues == old(queues) && current == old(current) && userTasks == old(userTasks)
      ensures GetPrio(t) == Clamp(prio) && GetDinamicPrio(t) == Clamp(prio)
      ensures idCount == old(idCount)
    {
      var h := Target(t);
      var p := ClampPrio(prio);
      UpdateKeepsWellFormed(tasks, queues, h, tasks[h].(prioEstat := p));
      tasks := tasks[h := tasks[h].(prioEstat := p)];
      p := ClampPrio(p);
      UpdateKeepsWellFormed(tasks, queues, h, tasks[h].(prioDinam := p));
      tasks := tasks[h := tasks[h].(prioDinam := p)];
    }

    /** task_alpha_dinamic_prio: adds alpha to the dynamic priority, clamped. */
    method AlphaDinamicPrio(t: Option<Handle>, alpha: int)
      requires WellFormed(tasks, queues) && Target(t) in tasks
      modifies this
      ensures WellFormed(tasks, queues)
      ensures tasks == old(tasks)[old(Target(t)) := old(tasks)[old(Target(t))].(prioDinam := AddAlpha(old(GetDinamicPrio(t)), alpha))]
      ensures queues == old(queues) && current == old(current) && userTasks == old(userTasks)
      ensures InRange(GetDinamicPrio(t))
      ensures idCount == old(idCount)
    {
      var h := Target(t);
      var novo := tasks[h].prioDinam + alpha;
      var p;
      if novo > PRIO_MIN {
        p := PRIO_MIN;
      } else if novo < PRIO_MAX {
        p := PRIO_MAX;
      } else {
        p := novo;
      }
      UpdateKeepsWellFormed(tasks, queues, h, tasks[h].(prioDinam := p));
      tasks := tasks[h := tasks[h].(prioDinam := p)];
    }

    /** task_get_old: ages every other member of the list the excluded task
        is linked into; a task given as NULL or linked into no list ages nobody. */
    method TaskGetOld(t: Option<Handle>)
      requires WellFormed(tasks, queues) && (t.Some? ==> t.value in tasks)
      modifies this
      ensures WellFormed(tasks, queues)
      ensures t.None? || old(tasks)[t.value].fila.None? ==> tasks == old(tasks)
      ensures t.Some? && old(tasks)[t.value].fila.Some? ==>
        var q := old(queues)[old(tasks)[t.value].fila.value];
        tasks.Keys == old(tasks).Keys &&
        forall h :: h in old(tasks) ==>
          tasks[h] == if h in q && h != t.value then AgeTask(old(tasks)[h]) else old(tasks)[h]
      ensures queues == old(queues) && current == old(current) && userTasks == old(userTasks)
      ensures idCount == old(idCount)
    {
      if t.None? {
        return;
      }
      var w := t.value;
      if tasks[w].fila.None? {
        return;
      }
      var q := queues[tasks[w].fila.value];
      var at := IndexOf(q, w);
      ghost var t0 := tasks;
      AgeRing(q, at);
      forall h | h in t0
        ensures tasks[h] == if h in q && h != w then AgeTask(t0[h]) else t0[h]
      {
        if h in q && h != w {
          var i := IndexOf(q, h);
        }
      }
    }

    /** The body of task_get_old's loop for one passed-over task. */
    method AgeOne(it: Handle)
      requires WellFormed(tasks, queues) && it in tasks
      modifies this
      ensures WellFormed(tasks, queues)
      ensures tasks == old(tasks)[it := AgeTask(old(tasks)[it])]
      ensures queues == old(queues) && current == old(current) && userTasks == old(userTasks)
      ensures idCount == old(idCount)
    {
      var prio := GetDinamicPrio(Some(it));
      if Between(PRIO_MAX, prio, PRIO_MIN) {
        AlphaDinamicPrio(Some(it), ALPHA);
      }
    }

    /** The loop of task_get_old: walks the circular list q once, starting
        after position `at` and stopping on coming back to it, and lowers by
        ALPHA each dynamic priority strictly between PRIO_MAX and PRIO_MIN. */
    method AgeRing(q: seq<Handle>, at: nat)
      requires WellFormed(tasks, queues) && at < |q| && NoDup(q)
      requires forall h :: h in q ==> h in tasks
      modifies this
      ensures WellFormed(tasks, queues) && tasks.Keys == old(tasks).Keys
      ensures forall i :: 0 <= i < |q| && i != at ==> tasks[q[i]] == AgeTask(old(tasks)[q[i]])
      ensures forall h :: h in old(tasks) && (h !in q || h == q[at]) ==> tasks[h] == old(tasks)[h]
      ensures queues == old(queues) && current == old(current) && userTasks == old(userTasks)
      ensures idCount == old(idCount)
    {
      var n := |q|;
      var j := if at + 1 == n then 0 else at + 1;
      var steps := 1;
      while j != at
        invariant 1 <= steps <= n && j < n
        invariant j == if at + steps < n then at + steps else at + steps - n
        invariant WellFormed(tasks, queues) && tasks.Keys == old(tasks).Keys
        invariant AgedUpTo(old(tasks), tasks, q, at, steps)
        invariant forall h :: h in old(tasks) && (h !in q || h == q[at]) ==> tasks[h] == old(tasks)[h]
        invariant queues == old(queues) && current == old(current) && userTasks == old(userTasks)
        invariant idCount == old(idCount)
        decreases n - steps
      {
        var it := q[j];
        assert it != q[at];
        AgedUpToStep(old(tasks), tasks, q, at, steps, j);
        AgeOne(it);
        j := if j + 1 == n then 0 else j + 1;
        steps := steps + 1;
      }
    }

    /** The call counting_sort(&fila_tprontas, task_compare) with its
        frequency array of PRIO_MIN - PRIO_MAX slots: the ready queue becomes
        its sorted version, unless a member at PRIO_MIN would index past the
        array's end; that case is reported as None and sorts nothing. */
    method SortReady() returns (r: Option<seq<Handle>>)
      requires WellFormed(tasks, queues) && queues[ReadyQueue] != []
      modifies this
      ensures tasks == old(tasks) && current == old(current) && userTasks == old(userTasks) && idCount == old(idCount)
      ensures WellFormed(tasks, queues)
      ensures r.None? <==> SortOverflows(tasks, old(queues)[ReadyQueue])
      ensures r.None? ==> queues == old(queues)
      ensures r.Some? ==> r.value == Prefix(old(queues)[ReadyQueue], DinamPrio(tasks), ALCANCE) &&
                          queues == old(queues)[ReadyQueue := r.value] && r.value != []
    {
      var q := queues[ReadyQueue];
      OverflowExact(tasks, q);
      r := Sort(q, DinamPrio(tasks), ALCANCE);
      if r.Some? {
        PrefixPermutation(q, DinamPrio(tasks), ALCANCE);
        PermuteKeepsWellFormed(tasks, queues, r.value);
        queues := queues[ReadyQueue := r.value];
      }
    }

    /** The rest of scheduler once the head w is chosen: task_get_old(w),
        then w's dynamic priority set back to its static one. */
    method AgeOthers(w: Handle)
      requires WellFormed(tasks, queues) && w in queues[ReadyQueue]
      modifies this
      ensures WellFormed(tasks, queues) && tasks.Keys == old(tasks).Keys
      ensures tasks[w] == old(tasks)[w].(prioDinam := old(tasks)[w].prioEstat)
      ensures forall h :: h in old(tasks) && h != w ==>
        tasks[h] == if h in old(queues)[ReadyQueue] then AgeTask(old(tasks)[h]) else old(tasks)[h]
      ensures queues == old(queues) && current == old(current) && userTasks == old(userTasks) && idCount == old(idCount)
    {
      assert tasks[w].fila == Some(ReadyQueue);
      TaskGetOld(Some(w));
      ghost var t1 := tasks;
      SetDinamicPrio(Some(w), GetPrio(Some(w)));
      assert forall h :: h in old(tasks) && h != w ==> tasks[h] == t1[h];
    }

    /** scheduler: on a non-empty ready queue, counting-sorts it by dynamic
        priority (stable, most urgent first), takes the new head, which is
        the first task of least dynamic priority in the old order, ages
        every other member and resets the head's dynamic priority to its
        static one.  The head stays in the ready queue.  When a ready task
        is at PRIO_MIN the sort would write past its frequency array; the
        model then reports `overflow` and changes nothing. */
    method Scheduler() returns (next: Option<Handle>, overflow: bool)
      requires WellFormed(tasks, queues)
      modifies this
      ensures WellFormed(tasks, queues)
      ensures overflow <==> SortOverflows(old(tasks), old(queues)[ReadyQueue])
      ensures next.None? <==> old(queues)[ReadyQueue] == [] || overflow
      ensures next.None? ==> tasks == old(tasks) && queues == old(queues)
      ensures next.Some? ==> Scheduled(old(tasks), old(queues), tasks, queues, next.value)
      ensures current == old(current) && userTasks == old(userTasks) && idCount == old(idCount)
    {
      if queues[ReadyQueue] == [] {
        return None, false;
      }
      ghost var t0, q := tasks, queues[ReadyQueue];
      ghost var qs0 := queues;
      var r := SortReady();
      if r.None? {
        return None, true;
      }
      overflow := false;
      var s := r.value;
      ghost var qs1 := queues;
      HeadInTasks(tasks, queues, ReadyQueue);
      next := Some(s[0]);
      AgeOthers(s[0]);
      SchedulerEffect(t0, qs0, tasks, qs1, s);
    }

    /** task_switch: NULL is refused with -1; otherwise the target becomes
        the current task.  No status and no queue changes. */
    method Switch(t: Option<Handle>) returns (rc: int)
      requires Sound() && (t.Some? ==> t.value in tasks)
      modifies this
      ensures Sound() && (old(Valid()) ==> Valid())
      ensures t.None? ==> rc == -1 && current == old(current)
      ensures t.Some? ==> rc == 0 && current == t.value
      ensures tasks == old(tasks) && queues == old(queues)
      ensures userTasks == old(userTasks) && idCount == old(idCount)
    {
      if t.None? {
        return -1;
      }
      current := t.value;
      rc := 0;
    }

    /** task_id. */
    function TaskId(): int
      reads this
      requires current in tasks
    {
      tasks[current].id
    }

    /** task_exit: when main (id 0) exits the process ends with the given
        code and the kernel state is left as it was.  Otherwise control goes
        to main when the dispatcher (id 1) exits and to the dispatcher
        otherwise; in both cases the count of user tasks drops by one, the
        exiting task is FINALIZADO and its successor EXECUTANDO. */
    method Exit(exitCode: int) returns (processExit: Option<int>)
      requires Valid()
      modifies this
      ensures Valid()
      ensures processExit.Some? <==> old(current) == MainH
      ensures processExit.Some? ==>
        processExit.value == exitCode &&
        tasks == old(tasks) && queues == old(queues) && current == old(current) && userTasks == old(userTasks)
      ensures processExit.None? ==>
        var last := old(current);
        var succ := if last == DispatcherH then MainH else DispatcherH;
        current == succ && userTasks == old(userTasks) - 1 &&
        tasks == ExitTasks(old(tasks), last, succ) && queues == old(queues)
      ensures idCount == old(idCount)
    {
      if tasks[current].id == 0 {
        return Some(exitCode);
      }
      var last := current;
      if tasks[last].id == 1 {
        current := MainH;
      } else {
        current := DispatcherH;
      }
      userTasks := userTasks - 1;
      MarkStatus(last, Finalizado);
      MarkStatus(current, Executando);
      processExit := None;
    }

    /** task_create: NULL is refused with -1 and nothing changes.  Otherwise
        the descriptor gets the next id, the current task as parent and
        default priorities; a task with id above 1 is a user task, so the
        user task count goes up and it is appended, PRONTO, to the ready
        queue; main and the dispatcher are only marked PRONTO. */
    method Create(t: Option<Handle>) returns (id: int)
      requires Sound() && (t.Some? ==> Creatable(tasks, t.value))
      modifies this
      ensures Sound() && (old(Valid()) && t != Some(MainH) && t != Some(DispatcherH) ==> Valid())
      ensures t.None? ==> (id == -1 && tasks == old(tasks) && queues == old(queues) &&
                           userTasks == old(userTasks) && idCount == old(idCount))
      ensures t.Some? ==> id == old(idCount) && idCount == old(idCount) + 1
      ensures t.Some? && id > 1 ==>
        userTasks == old(userTasks) + 1 &&
        tasks == old(tasks)[t.value := Task(id, Pronto, Some(old(current)), Some(ReadyQueue), STANDARD_PRIO, STANDARD_PRIO)] &&
        queues == old(queues)[ReadyQueue := old(queues)[ReadyQueue] + [t.value]]
      ensures t.Some? && id <= 1 ==>
        userTasks == old(userTasks) && queues == old(queues) &&
        tasks == old(tasks)[t.value := Task(id, Pronto, Some(old(current)), None, STANDARD_PRIO, STANDARD_PRIO)]
      ensures current == old(current)
    {
      if t.None? {
        return -1;
      }
      var h := t.value;
      InitDescriptor(h);
      if tasks[h].id > 1 {
        ReadyCreated(h);
      } else {
        MarkStatus(h, Pronto);
      }
      id := tasks[h].id;
    }

    /** The second part of task_create for a user task: one more user task,
        appended PRONTO to the ready queue. */
    method ReadyCreated(h: Handle)
      requires Sound() && h in tasks && tasks[h].fila == None
      modifies this
      ensures Sound() && (Roles(old(tasks)) ==> Roles(tasks))
      ensures tasks == old(tasks)[h := old(tasks)[h].(status := Pronto, fila := Some(ReadyQueue))]
      ensures queues == old(queues)[ReadyQueue := old(queues)[ReadyQueue] + [h]]
      ensures userTasks == old(userTasks) + 1 && current == old(current) && idCount == old(idCount)
    {
      ghost var t1 := tasks;
      userTasks := userTasks + 1;
      var rc := SetReady(h);
      assert SameRoles(t1, tasks);
      if Roles(t1) {
        RolesCarry(t1, tasks);
      }
    }

    /** The first part of task_create: a NOVO descriptor in no queue with
        the next id, the current task as parent and default priorities, set
        again through task_setprio and task_set_dinamic_prio. */
    method InitDescriptor(h: Handle)
      requires Sound() && Creatable(tasks, h)
      modifies this
      ensures Sound()
      ensures tasks == old(tasks)[h := Task(old(idCount), Novo, Some(old(current)), None, STANDARD_PRIO, STANDARD_PRIO)]
      ensures idCount == old(idCount) + 1
      ensures queues == old(queues) && current == old(current) && userTasks == old(userTasks)
    {
      var task := Task(idCount, Novo, Some(current), None, STANDARD_PRIO, STANDARD_PRIO);
      if h in tasks {
        UpdateKeepsWellFormed(tasks, queues, h, task);
      } else {
        AddTaskKeepsWellFormed(tasks, queues, h, task);
      }
      idCount := idCount + 1;
      tasks := tasks[h := task];
      SetPrio(Some(h), STANDARD_PRIO);
      SetDinamicPrio(Some(h), GetPrio(Some(h)));
    }

    /** The part of task_suspend before its final switch: SUSPENSO, and
        moved to the tail of q when a queue is given. */
    method SuspendIn(w: Handle, q: Option<QueueId>)
      requires WellFormed(tasks, queues) && w in tasks
      modifies this
      ensures tasks == SuspendTasks(old(tasks), w, q) && queues == SuspendQueues(old(tasks), old(queues), w, q)
      ensures current == old(current) && userTasks == old(userTasks) && idCount == old(idCount)
    {
      tasks := tasks[w := tasks[w].(status := Suspenso)];
      if q.Some? {
        if tasks[w].fila.Some? {
          queues := queues[tasks[w].fila.value := Remove(queues[tasks[w].fila.value], w)];
        }
        queues := queues[q.value := QueueOr(queues, q.value) + [w]];
        tasks := tasks[w := tasks[w].(fila := q)];
      }
    }

    /** task_suspend: the task (the current one for NULL) becomes SUSPENSO;
        given a queue, it moves from its queue to that queue's tail.  For
        NULL it then switches to the dispatcher, which changes nothing else,
        so the suspension stands. */
    method Suspend(t: Option<Handle>, q: Option<QueueId>)
      requires Valid() && (t.Some? ==> t.value in tasks)
      modifies this
      ensures Valid()
      ensures var w := if t.Some? then t.value else old(current);
        tasks == SuspendTasks(old(tasks), w, q) && queues == SuspendQueues(old(tasks), old(queues), w, q)
      ensures current == if t.Some? then old(current) else DispatcherH
      ensures userTasks == old(userTasks) && idCount == old(idCount)
    {
      ghost var t0 := tasks;
      var w := if t.Some? then t.value else current;
      SuspendKeepsWellFormed(tasks, queues, w, q);
      SuspendIn(w, q);
      assert SameRoles(t0, tasks);
      RolesCarry(t0, tasks);
      if t.None? {
        var rc := Switch(Some(DispatcherH));
      }
    }

    /** task_resume: task_set_ready on the task. */
    method Resume(h: Handle)
      requires Valid() && h in tasks
      modifies this
      ensures Valid()
      ensures tasks == ReadyTasks(old(tasks), h) && queues == ReadyQueues(old(tasks), old(queues), h)
      ensures current == old(current) && userTasks == old(userTasks) && idCount == old(idCount)
    {
      ghost var t0 := tasks;
      var rc := SetReady(h);
      assert SameRoles(t0, tasks);
      RolesCarry(t0, tasks);
    }

    /** task_yield: a user task (id above 1) goes back to the ready queue as
        PRONTO; main and the dispatcher are only marked PRONTO and join no
        queue.  Then a switch to the dispatcher. */
    method Yield()
      requires Valid()
      modifies this
      ensures Valid() && current == DispatcherH
      ensures var c := old(current);
        (old(tasks)[c].id > 1 ==> tasks == ReadyTasks(old(tasks), c) && queues == ReadyQueues(old(tasks), old(queues), c)) &&
        (old(tasks)[c].id <= 1 ==> tasks == old(tasks)[c := old(tasks)[c].(status := Pronto)] && queues == old(queues))
      ensures userTasks == old(userTasks) && idCount == old(idCount)
    {
      ghost var t0 := tasks;
      if tasks[current].id > 1 {
        var rc := SetReady(current);
        assert SameRoles(t0, tasks);
        RolesCarry(t0, tasks);
      } else {
        MarkStatus(current, Pronto);
      }
      var rc := Switch(Some(DispatcherH));
    }

    /** init_tarefa_principal: main gets the next id, no parent, is
        EXECUTANDO in no queue with default priorities, and becomes the
        current task. */
    method InitTarefaPrincipal()
      requires WellFormed(tasks, queues) && MainH !in tasks
      modifies this
      ensures Sound()
      ensures tasks == old(tasks)[MainH := Task(old(idCount), Executando, None, None, STANDARD_PRIO, STANDARD_PRIO)]
      ensures queues == old(queues) && current == MainH
      ensures userTasks == old(userTasks) && idCount == old(idCount) + 1
    {
      var main := Task(idCount, Executando, None, None, STANDARD_PRIO, STANDARD_PRIO);
      AddTaskKeepsWellFormed(tasks, queues, MainH, main);
      tasks := tasks[MainH := main];
      idCount := idCount + 1;
      SetPrio(Some(MainH), STANDARD_PRIO);
      SetDinamicPrio(Some(MainH), GetPrio(Some(MainH)));
      current := MainH;
    }

    /** pingpong_init: main, then task_create on the dispatcher, which gets
        id 1 and so is only marked PRONTO. */
    constructor Init()
      ensures Valid()
      ensures tasks == InitialTasks() && queues == map[ReadyQueue := []]
      ensures current == MainH && userTasks == 0 && idCount == 2
    {
      tasks := map[];
      queues := map[ReadyQueue := []];
      current := MainH;
      userTasks := 0;
      idCount := 0;
      new;
      InitTarefaPrincipal();
      var id := Create(Some(DispatcherH));
      assert tasks == InitialTasks();
      InitialStateValid();
    }

    /** One dispatched task's turn, from the switch into it until control is
        back with the dispatcher, or until main ends the process. */
    method Perform(a: Action) returns (processExit: Option<int>)
      requires Valid() && current != DispatcherH && NoneRunningBut(tasks, current)
      modifies this
      ensures Valid()
      ensures processExit.Some? <==> a.ExitAction? && old(current) == MainH
      ensures processExit.None? ==> current == DispatcherH && NoneRunningBut(tasks, DispatcherH)
    {
      processExit := None;
      match a
      case YieldAction => Yield();
      case ExitAction(code) => processExit := Exit(code);
      case SuspendSelf(q) => Suspend(None, Some(q));
    }

    /** The dispatcher hands the processor to h: EXECUTANDO and out of its
        queue, the dispatcher PRONTO, the switch, h does `a`, and when
        control comes back the dispatcher is EXECUTANDO again. */
    method RunTask(h: Handle, a: Action) returns (processExit: Option<int>)
      requires Valid() && current == DispatcherH && h in tasks && NoneRunningBut(tasks, DispatcherH)
      modifies this
      ensures Valid()
      ensures processExit.Some? ==> h == MainH && a.ExitAction?
      ensures processExit.None? ==> current == DispatcherH && OneRunning(tasks, DispatcherH)
    {
      var rc := SetExecuting(h);
      assert SameRoles(old(tasks), tasks);
      RolesCarry(old(tasks), tasks);
      MarkStatus(DispatcherH, Pronto);
      rc := Switch(Some(h));
      processExit := None;
      if h != DispatcherH {
        processExit := Perform(a);
        if processExit.Some? {
          return;
        }
      }
      MarkStatus(DispatcherH, Executando);
    }

    /** One iteration of dispatcher_body's loop: ask the scheduler; when it
        names a task, run it for one turn. */
    method DispatchRound(a: Action) returns (next: Option<Handle>, overflow: bool, processExit: Option<int>)
      requires Valid() && current == DispatcherH && OneRunning(tasks, DispatcherH)
      modifies this
      ensures Valid()
      ensures overflow <==> SortOverflows(old(tasks), old(queues)[ReadyQueue])
      ensures next.None? <==> old(queues)[ReadyQueue] == [] || overflow
      ensures next.Some? ==> next.value in old(queues)[ReadyQueue]
      ensures next.None? ==> processExit.None? && tasks == old(tasks) && queues == old(queues) && userTasks == old(userTasks)
      ensures processExit.None? ==> current == DispatcherH && OneRunning(tasks, DispatcherH)
    {
      ghost var t1 := tasks;
      next, overflow := Scheduler();
      processExit := None;
      forall h | h in tasks
        ensures tasks[h].status == t1[h].status && tasks[h].id == t1[h].id
      {
      }
      assert SameRoles(t1, tasks);
      RolesCarry(t1, tasks);
      if next.Some? {
        assert next.value in multiset(queues[ReadyQueue]);
        processExit := RunTask(next.value, a);
      }
    }

    /** dispatcher_body: while the user task count is positive, take the
        scheduler's choice and run it; stop when the ready queue is empty;
        finally task_exit(0), which hands the processor to main and takes
        one more off the user task count.  `activity[k]` is what the task
        dispatched in round k does; when one of them is main calling
        task_exit the process ends there.  A scheduler call that would
        overflow counting_sort's array ends the run with SortOverflow, at
        the state just before that call. */
    method DispatcherBody(activity: seq<Action>) returns (outcome: Outcome, rounds: nat)
      requires Valid() && current == DispatcherH && NoneRunningBut(tasks, DispatcherH)
      modifies this
      ensures Valid() && rounds <= |activity|
      ensures !outcome.ProcessExit? && !outcome.SortOverflow? ==>
        current == MainH && OneRunning(tasks, MainH) && tasks[DispatcherH].status == Finalizado
      ensures outcome == SortOverflow ==>
        current == DispatcherH && userTasks > 0 && SortOverflows(tasks, queues[ReadyQueue])
      ensures outcome == AllDone ==> userTasks < 0
      ensures outcome == NothingReady ==> userTasks >= 0 && queues[ReadyQueue] == []
      ensures outcome == OutOfActivity ==> rounds == |activity|
    {
      MarkStatus(DispatcherH, Executando);
      outcome, rounds := AllDone, 0;
      while userTasks > 0
        invariant Valid() && current == DispatcherH && rounds <= |activity|
        invariant OneRunning(tasks, DispatcherH)
        invariant outcome == AllDone
        decreases |activity| - rounds
      {
        if rounds == |activity| {
          outcome := OutOfActivity;
          break;
        }
        var next, overflow, processExit := DispatchRound(activity[rounds]);
        if overflow {
          return SortOverflow, rounds;
        }
        if processExit.Some? {
          return ProcessExit(processExit.value), rounds + 1;
        }
        if next.Some? {
          rounds := rounds + 1;
        } else if queues[ReadyQueue] == [] {
          outcome := NothingReady;
          break;
        }
      }
      ghost var ready, t1 := queues[ReadyQueue], tasks;
      var processExit := Exit(0);
      ExitKeepsOneRunning(t1, DispatcherH, MainH);
      assert ready == [] ==> queues[ReadyQueue] == [];
    }
  }
}
