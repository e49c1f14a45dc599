/** The table of task slots: a slot's pid is its index, or PID_NO_TASK while the slot is free. */
module TaskTable {
  import opened Arithmetic
  import opened Constants
  import opened Options

  /** pid_to_task, as a slot number: negative pids, pids past the table and free slots give none. */
  function Lookup(pids: seq<int>, pid: int): (r: Option<nat>)
    ensures r.Some? ==> r.value == pid
  {
    if 0 <= pid < |pids| && pids[pid] != PID_NO_TASK then Some(pid) else None
  }

  /** The first free slot, or the length of the table. */
  function FirstFree(pids: seq<int>): (i: nat)
    ensures i <= |pids| && (i < |pids| ==> pids[i] == PID_NO_TASK)
    ensures forall k :: 0 <= k < i ==> pids[k] != PID_NO_TASK
  {
    if pids == [] || pids[0] == PID_NO_TASK then 0 else 1 + FirstFree(pids[1..])
  }

  lemma {:induction false} FirstFreeIs(pids: seq<int>, i: nat)
    requires i <= |pids| && (i < |pids| ==> pids[i] == PID_NO_TASK)
    requires forall k :: 0 <= k < i ==> pids[k] != PID_NO_TASK
    ensures FirstFree(pids) == i
  {
    if i > 0 {
      assert pids[0] != PID_NO_TASK;
      FirstFreeIs(pids[1..], i - 1);
    }
  }

  ghost predicate WellKept(pids: seq<int>) {
    |pids| == TASKS && forall i :: 0 <= i < |pids| ==> pids[i] == i || pids[i] == PID_NO_TASK
  }

  class TaskTable {
    const pids: array<int>

    ghost predicate Valid()
      reads this, pids
    {
      WellKept(pids[..])
    }

    constructor ()
      ensures Valid() && fresh(pids) && forall i :: 0 <= i < TASKS ==> pids[i] == PID_NO_TASK
    {
      pids := new int[TASKS](_ => PID_NO_TASK);
    }

    method TaskAlloc() returns (task: Option<nat>)
      requires Valid()
      modifies pids
      ensures Valid()
      ensures var i := FirstFree(old(pids[..]));
              if i == TASKS then task == None && pids[..] == old(pids[..])
              else task == Some(i) && pids[..] == old(pids[..])[i := i]
    {
      var i := 0;
      while i < TASKS
        invariant i <= TASKS && pids[..] == old(pids[..])
        invariant forall k :: 0 <= k < i ==> pids[k] != PID_NO_TASK
      {
        if pids[i] == PID_NO_TASK {
          FirstFreeIs(pids[..], i);
          pids[i] := i;
          return Some(i);
        }
        i := i + 1;
      }
      FirstFreeIs(pids[..], i);
      return None;
    }

    method TaskFree(task: Option<nat>)
      requires Valid() && (task.Some? ==> task.value < TASKS)
      modifies pids
      ensures Valid()
      ensures pids[..] == if task == None then old(pids[..]) else old(pids[..])[task.value := PID_NO_TASK]
    {
      if task == None {
        return;
      }
      pids[task.value] := PID_NO_TASK;
    }

    method PidToTask(pid: int) returns (task: Option<nat>)
      requires Valid()
      ensures task == Lookup(pids[..], pid)
    {
      if pid > TASKS - 1 || !(pid >= 0 && pids[pid] != PID_NO_TASK) {
        return None;
      }
      return Some(pid);
    }
  }

  /** A new task gets a pid nobody had; every other pid still finds its task; freeing it restores the table. */
  lemma AllocThenFree(pids: seq<int>, pid: int)
    requires WellKept(pids) && FirstFree(pids) < TASKS
    ensures var i := FirstFree(pids);
            && Lookup(pids, i) == None && Lookup(pids[i := i], i) == Some(i)
            && (pid != i ==> Lookup(pids[i := i], pid) == Lookup(pids, pid))
            && pids[i := i][i := PID_NO_TASK] == pids
  {
  }

  /** task_to_pid: from the address of a slot back to its number; `size` is the size of a task_struct. */
  function TaskToPid(table: nat, size: nat, task: nat): (pid: int)
    requires size > 0 && task >= table
    ensures 0 <= pid <= PID_NO_TASK
  {
    var pid := (task - table) / size;
    if pid > TASKS - 1 then PID_NO_TASK else pid
  }

  lemma TaskToPidRoundTrip(table: nat, size: nat, i: nat, offset: nat)
    requires offset < size
    ensures TaskToPid(table, size, table + i * size + offset) == if i < TASKS then i else PID_NO_TASK
  {
    QuotientOf(i, offset, size);
  }
}
