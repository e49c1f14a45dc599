/**
 The scheduler: each CPU's ready list in order of virtual run time, its list of waiting tasks, the queues of
 semaphores and of exited children. A task has one list node, so that it can be on one of these at a time.
 */
module Scheduler {
  import opened Words

  datatype Status = Ready | Running | Blocked | Sending | Receiving | Waiting | Died

  /** The lists a task's node can be on: of CPU c, of semaphore s used on CPU c, of parent q. */
  datatype ListId = ReadyOf(c: nat) | WaitingOf(c: nat) | SemaOf(c: nat, s: nat) | ExitedOf(q: nat)

  datatype Place = Nowhere | On(l: ListId)

  /**
   A task. `resident` marks the main task of a CPU, `leaving` a task that has given its children away in
   task_exit, and `place` says which list holds its node. None of them is stored by the kernel, and no operation
   below looks at them to decide anything.
   */
  datatype Task = Task(status: Status, cpu: nat, ppid: nat, preempt: nat, vrun: Word, weight: Word,
                       resident: bool, leaving: bool, place: Place)

  /** Where a CPU is: running its task, or at a point inside schedule(). */
  datatype Phase =
    | Run
    | Out              // schedule() has been entered
    | Dying(q: nat)    // inform_exit has read the parent's pid
    | Check(kept: nat) // check_waiting_list has left that many waiters where they were

  datatype Cpu = Cpu(running: Word, weight: Word, current: nat, idle: nat, main: nat, phase: Phase)

  datatype State = State(tasks: map<nat, Task>, lists: map<ListId, seq<nat>>, cpus: map<nat, Cpu>)

  const NoTask: Task := Task(Died, 0, 0, 0, 0, 0, false, true, Nowhere)
  const NoCpu: Cpu := Cpu(0, 0, 0, 0, 0, Run)

  function TaskOf(st: State, p: nat): Task {
    if p in st.tasks then st.tasks[p] else NoTask
  }

  function CpuOf(st: State, c: nat): Cpu {
    if c in st.cpus then st.cpus[c] else NoCpu
  }

  function ListOf(st: State, l: ListId): seq<nat> {
    if l in st.lists then st.lists[l] else []
  }

  function SetTask(st: State, p: nat, t: Task): State {
    st.(tasks := st.tasks[p := t])
  }

  function SetCpu(st: State, c: nat, k: Cpu): State {
    st.(cpus := st.cpus[c := k])
  }

  // ---------------------------------------------------------------- list nodes

  /** list_in: p's node goes to position i of list l. */
  function Link(st: State, p: nat, l: ListId, i: nat): State {
    var s := ListOf(st, l);
    var j := if i <= |s| then i else |s|;
    SetTask(st, p, TaskOf(st, p).(place := On(l))).(lists := st.lists[l := s[..j] + [p] + s[j..]])
  }

  function Append(st: State, p: nat, l: ListId): State {
    Link(st, p, l, |ListOf(st, l)|)
  }

  /** list_remove of the node at position i. */
  function Unlink(st: State, l: ListId, i: nat): State
    requires i < |ListOf(st, l)|
  {
    var s := ListOf(st, l);
    SetTask(st, s[i], TaskOf(st, s[i]).(place := Nowhere)).(lists := st.lists[l := s[..i] + s[i + 1..]])
  }

  // ---------------------------------------------------------------- task_list_insert and get_next_task

  /** `(int64_t)(a - b) < 0`. */
  predicate Before(a: Word, b: Word) {
    Signed(Wrap(a - b)) < 0
  }

  /** The first position whose task is later than v. */
  function InsertPos(st: State, s: seq<nat>, v: Word): (i: nat)
    ensures i <= |s|
    ensures forall k :: 0 <= k < i ==> !Before(v, TaskOf(st, s[k]).vrun)
    ensures i < |s| ==> Before(v, TaskOf(st, s[i]).vrun)
  {
    if s == [] || Before(v, TaskOf(st, s[0]).vrun) then 0 else 1 + InsertPos(st, s[1..], v)
  }

  function Inserted(st: State, c: nat, p: nat): State {
    var s, t, k := ListOf(st, ReadyOf(c)), TaskOf(st, p), CpuOf(st, c);
    if p in s then st
    else
      var st1 := Link(st, p, ReadyOf(c), InsertPos(st, s, t.vrun));
      var st2 := SetTask(st1, p, TaskOf(st1, p).(status := Ready));
      SetCpu(st2, c, k.(running := Wrap(k.running + 1), weight := Wrap(k.weight + t.weight)))
  }

  /** Takes the node at the head of the ready list. */
  function Taken(st: State, c: nat): State
    requires ListOf(st, ReadyOf(c)) != []
  {
    var k, w := CpuOf(st, c), TaskOf(st, ListOf(st, ReadyOf(c))[0]).weight;
    SetCpu(Unlink(st, ReadyOf(c), 0), c, k.(running := Wrap(k.running - 1), weight := Wrap(k.weight - w)))
  }

  /** Wakes the idle task when nothing is ready. */
  function WithWork(st: State, c: nat): State {
    if ListOf(st, ReadyOf(c)) != [] then st
    else
      var idle := CpuOf(st, c).idle;
      Inserted(st, TaskOf(st, idle).cpu, idle)
  }

  // ---------------------------------------------------------------- check_waiting_list

  /** Whether a waiting task stays where it is; `ipc` is the answer of task_ipc_check. */
  predicate Stays(st: State, p: nat, ipc: bool) {
    var stat := TaskOf(st, p).status;
    || ((stat == Sending || stat == Receiving) && !ipc)
    || (stat == Waiting && ListOf(st, ExitedOf(p)) == [])
  }

  /** The waiter at position i, where the walk has arrived, stays or becomes ready. */
  function Checked(st: State, c: nat, i: nat, ipc: bool): State
    requires i < |ListOf(st, WaitingOf(c))|
  {
    var p := ListOf(st, WaitingOf(c))[i];
    if Stays(st, p, ipc) then st
    else
      var st1 := Unlink(st, WaitingOf(c), i);
      Inserted(st1, TaskOf(st1, p).cpu, p)
  }

  // ---------------------------------------------------------------- leaving the CPU

  /** The switch in schedule(), up to the point where inform_exit takes the parent's lock. */
  function SwitchedOut(st: State, c: nat): State {
    var k := CpuOf(st, c);
    var p := k.current;
    var t, st1 := TaskOf(st, p), GoTo(st, c, Check(0));
    match t.status
    case Running => Inserted(st1, c, p)
    case Sending => Append(st1, p, WaitingOf(c))
    case Receiving => Append(st1, p, WaitingOf(c))
    case Waiting => Append(st1, p, WaitingOf(c))
    case Died => GoTo(st, c, Dying(t.ppid))
    case _ => st1
  }

  function GoTo(st: State, c: nat, phase: Phase): State {
    SetCpu(st, c, CpuOf(st, c).(phase := phase))
  }

  /** The locked part of inform_exit: appends to the list of the task read as parent. */
  function Informed(st: State, c: nat, q: nat): State {
    Append(GoTo(st, c, Check(0)), CpuOf(st, c).current, ExitedOf(q))
  }

  /** The rest of schedule(): the next task runs. */
  function Picked(st: State, c: nat): State {
    var st1 := WithWork(st, c);
    if ListOf(st1, ReadyOf(c)) == [] then st1 else Switched(st1, c)
  }

  function Switched(st1: State, c: nat): State
    requires ListOf(st1, ReadyOf(c)) != []
  {
    var next, st2 := ListOf(st1, ReadyOf(c))[0], Taken(st1, c);
    var st3 := SetTask(st2, next, TaskOf(st2, next).(status := Running, cpu := c));
    SetCpu(st3, c, CpuOf(st3, c).(current := next, phase := Run))
  }

  // ---------------------------------------------------------------- task_exit

  /** One round of the second loop of main_task_adopt_child. */
  function AdoptedOne(st: State, p: nat): State
    requires ListOf(st, ExitedOf(p)) != []
  {
    var r, st1 := ListOf(st, ExitedOf(p))[0], Unlink(st, ExitedOf(p), 0);
    Append(st1, r, ExitedOf(CpuOf(st1, TaskOf(st1, r).cpu).main))
  }

  /** The first loop: the children get a new parent. */
  function Reparented(st: State, p: nat): State {
    st.(tasks := map r | r in st.tasks ::
      if st.tasks[r].ppid == p then st.tasks[r].(ppid := CpuOf(st, st.tasks[r].cpu).main) else st.tasks[r])
  }

  /** The second loop, which ends unless p itself is the one that adopts. */
  function Emptied(st: State, p: nat): State
    decreases |ListOf(st, ExitedOf(p))|
  {
    if ListOf(st, ExitedOf(p)) == [] || |ListOf(AdoptedOne(st, p), ExitedOf(p))| >= |ListOf(st, ExitedOf(p))| then st
    else Emptied(AdoptedOne(st, p), p)
  }

  function Adopted(st: State, p: nat): State {
    var st1 := Emptied(Reparented(st, p), p);
    SetTask(st1, p, TaskOf(st1, p).(leaving := true))
  }
}
