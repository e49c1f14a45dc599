/**
 The scheduler as a step system. A step is one locked section of the source, together with the code around it
 that touches only what its own CPU may touch; steps of different CPUs interleave freely.
 */
module SchedulerSteps {
  import opened Constants
  import opened Words
  import opened Scheduler

  datatype Step =
    | StartCpu(c: nat, main: nat, idle: nat, parent: nat, w: Word, wIdle: Word)
    | Spawn(c: nat, p: nat, w: Word)       // task_start
    | Tick(c: nat, v: Word)                // task_update gives the running task a new virtual run time
    | Preempt(c: nat, n: nat)              // spinlocks change the preempt count
    | Yield(c: nat)                        // schedule() from an interrupt or task_yield
    | Block(c: nat, status: Status)        // task_block for a message or a child
    | Rest(c: nat)                         // the idle task blocks
    | SemaWait(c: nat, s: nat)             // the part of sema_down that blocks
    | SemaWake(c: nat, s: nat)             // the part of sema_up that unblocks
    | Adopt(c: nat)                        // task_exit: main_task_adopt_child
    | Die(c: nat)                          // task_exit: task_block(TASK_DIED)
    | Reap(c: nat)                         // the parent takes an exited child and frees it
    | SwitchOut(c: nat)
    | Inform(c: nat)
    | CheckNext(c: nat, ipc: bool)
    | PickNext(c: nat)

  predicate Fresh(st: State, p: nat) {
    p < TASKS && p !in st.tasks
  }

  /** The current task of CPU c executes its own code. */
  predicate Runs(st: State, c: nat) {
    c in st.cpus && st.cpus[c].phase == Run && st.cpus[c].current in st.tasks
  }

  /** A task other than the idle task, with no spinlock held, executes its own code. */
  predicate Works(st: State, c: nat) {
    Runs(st, c) && var k := st.cpus[c]; k.current != k.idle && st.tasks[k.current].preempt == 0
  }

  predicate Enabled(st: State, step: Step) {
    match step
    case StartCpu(c, main, idle, parent, _, _) =>
      && c !in st.cpus && Fresh(st, main) && Fresh(st, idle) && main != idle
      && (parent == main || exists d :: d in st.cpus && st.cpus[d].main == parent)
    case Spawn(c, p, _) => Runs(st, c) && Fresh(st, p) && !st.tasks[st.cpus[c].current].leaving
    case Tick(c, _) => Runs(st, c)
    case Preempt(c, _) => Runs(st, c)
    case Yield(c) => Runs(st, c) && st.tasks[st.cpus[c].current].preempt == 0
    case Block(c, status) => Works(st, c) && status in {Sending, Receiving, Waiting}
    case Rest(c) => Runs(st, c) && st.cpus[c].current == st.cpus[c].idle && st.tasks[st.cpus[c].current].preempt == 0
    case SemaWait(c, s) => Works(st, c)
    case SemaWake(c, s) => Runs(st, c)
    case Adopt(c) => Runs(st, c) && st.cpus[c].current != st.cpus[c].idle && !st.tasks[st.cpus[c].current].resident
    case Die(c) => Works(st, c) && st.tasks[st.cpus[c].current].leaving
    case Reap(c) => Runs(st, c) && ListOf(st, ExitedOf(st.cpus[c].current)) != []
    case SwitchOut(c) => c in st.cpus && st.cpus[c].phase == Out
    case Inform(c) => c in st.cpus && st.cpus[c].phase.Dying?
    case CheckNext(c, _) => Walking(st, c) && st.cpus[c].phase.kept < |ListOf(st, WaitingOf(c))|
    case PickNext(c) => Walking(st, c) && st.cpus[c].phase.kept == |ListOf(st, WaitingOf(c))|
  }

  predicate Walking(st: State, c: nat) {
    c in st.cpus && st.cpus[c].phase.Check?
  }

  function Current(st: State, c: nat): nat {
    CpuOf(st, c).current
  }

  /** task_block: the status is set and schedule() is entered. */
  function Blocks(st: State, c: nat, status: Status): State {
    var p := Current(st, c);
    GoTo(SetTask(st, p, TaskOf(st, p).(status := status)), c, Out)
  }

  /** task_alloc, init_task_struct and task_list_insert. */
  function Spawned(st: State, c: nat, p: nat, ppid: nat, w: Word): State {
    Inserted(SetTask(st, p, Task(Ready, c, ppid, 0, 0, w, false, false, Nowhere)), c, p)
  }

  function Started(st: State, c: nat, main: nat, idle: nat, parent: nat, w: Word, wIdle: Word): State {
    var st1 := SetTask(st, main, Task(Running, c, parent, 0, 0, w, true, false, Nowhere));
    Spawned(SetCpu(st1, c, Cpu(0, 0, main, idle, main, Run)), c, idle, main, wIdle)
  }

  function Woken(st: State, l: ListId): State {
    if ListOf(st, l) == [] then st
    else
      var p, st1 := ListOf(st, l)[0], Unlink(st, l, 0);
      Inserted(st1, TaskOf(st1, p).cpu, p)
  }

  /** The first exited child is unlinked and its slot becomes free. */
  function Reaped(st: State, p: nat): State
    requires ListOf(st, ExitedOf(p)) != []
  {
    var st1 := Unlink(st, ExitedOf(p), 0);
    st1.(tasks := st1.tasks - {ListOf(st, ExitedOf(p))[0]})
  }

  function CheckedNext(st: State, c: nat, ipc: bool): State
    requires Walking(st, c) && st.cpus[c].phase.kept < |ListOf(st, WaitingOf(c))|
  {
    var k := st.cpus[c].phase.kept;
    if Stays(st, ListOf(st, WaitingOf(c))[k], ipc) then GoTo(st, c, Check(k + 1)) else Checked(st, c, k, ipc)
  }

  function Apply(st: State, step: Step): State
    requires Enabled(st, step)
  {
    match step
    case StartCpu(c, main, idle, parent, w, wIdle) => Started(st, c, main, idle, parent, w, wIdle)
    case Spawn(c, p, w) => Spawned(st, c, p, Current(st, c), w)
    case Tick(c, v) => SetTask(st, Current(st, c), TaskOf(st, Current(st, c)).(vrun := v))
    case Preempt(c, n) => SetTask(st, Current(st, c), TaskOf(st, Current(st, c)).(preempt := n))
    case Yield(c) => GoTo(st, c, Out)
    case Block(c, status) => Blocks(st, c, status)
    case Rest(c) => Blocks(st, c, Blocked)
    case SemaWait(c, s) => Blocks(Append(st, Current(st, c), SemaOf(c, s)), c, Blocked)
    case SemaWake(c, s) => Woken(st, SemaOf(c, s))
    case Adopt(c) => Adopted(st, Current(st, c))
    case Die(c) => Blocks(st, c, Died)
    case Reap(c) => Reaped(st, Current(st, c))
    case SwitchOut(c) => SwitchedOut(st, c)
    case Inform(c) => Informed(st, c, st.cpus[c].phase.q)
    case CheckNext(c, ipc) => CheckedNext(st, c, ipc)
    case PickNext(c) => Picked(st, c)
  }
}
