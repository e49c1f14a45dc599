/** The scheduler's code, as methods on the kernel's tables, each tied to the operation it performs. */
module SchedulerCode {
  import opened Constants
  import opened Words
  import opened Scheduler
  import opened SchedulerSteps
  import opened SchedulerInvariant
  import opened SchedulerSafety
  import opened SchedulerExit
  import opened SchedulerWalk

  class Kernel {
    var tasks: map<nat, Task>
    var lists: map<ListId, seq<nat>>
    var cpus: map<nat, Cpu>

    ghost function St(): State
      reads this
    {
      State(tasks, lists, cpus)
    }

    constructor (st: State)
      ensures St() == st
    {
      tasks, lists, cpus := st.tasks, st.lists, st.cpus;
    }

    method Task(p: nat) returns (t: Task)
      ensures t == TaskOf(St(), p)
    {
      t := if p in tasks then tasks[p] else NoTask;
    }

    method List(l: ListId) returns (s: seq<nat>)
      ensures s == ListOf(St(), l)
    {
      s := if l in lists then lists[l] else [];
    }

    /** list_in before the node at position i. */
    method ListIn(p: nat, l: ListId, i: nat)
      requires i <= |ListOf(St(), l)|
      modifies this
      ensures St() == Link(old(St()), p, l, i)
    {
      var s := List(l);
      var t := Task(p);
      lists := lists[l := s[..i] + [p] + s[i..]];
      tasks := tasks[p := t.(place := On(l))];
    }

    /** list_remove of the node at position i. */
    method ListRemove(l: ListId, i: nat)
      requires i < |ListOf(St(), l)|
      modifies this
      ensures St() == Unlink(old(St()), l, i)
    {
      var s := List(l);
      var t := Task(s[i]);
      lists := lists[l := s[..i] + s[i + 1..]];
      tasks := tasks[s[i] := t.(place := Nowhere)];
    }

    /** The scan of task_list_insert. */
    method FindPlace(s: seq<nat>, v: Word) returns (i: nat)
      ensures i == InsertPos(St(), s, v)
    {
      hide Before;
      i := 0;
      while i < |s|
        invariant i <= |s|
        invariant InsertPos(St(), s, v) == i + InsertPos(St(), s[i..], v)
      {
        var tmp := Task(s[i]);
        if Before(v, tmp.vrun) {
          break;
        }
        assert s[i..][1..] == s[i + 1..];
        i := i + 1;
      }
    }

    method Cpu(c: nat) returns (k: Cpu)
      ensures k == CpuOf(St(), c)
    {
      k := if c in cpus then cpus[c] else NoCpu;
    }

    method TaskListInsert(c: nat, p: nat)
      modifies this
      ensures St() == Inserted(old(St()), c, p)
    {
      hide Wrap, InsertPos;
      var s := List(ReadyOf(c));
      if p in s {
        return;
      }
      var t := Task(p);
      var i := FindPlace(s, t.vrun);
      ListIn(p, ReadyOf(c), i);
      var k := Cpu(c);
      cpus := cpus[c := k.(running := Wrap(k.running + 1), weight := Wrap(k.weight + t.weight))];
      tasks := tasks[p := tasks[p].(status := Ready)];
    }

    /** task_unblock: the task goes to the ready list of its CPU. */
    method TaskUnblock(p: nat)
      modifies this
      ensures St() == Inserted(old(St()), TaskOf(old(St()), p).cpu, p)
    {
      var t := Task(p);
      TaskListInsert(t.cpu, p);
    }

    method HasExitedChild(p: nat) returns (r: bool)
      ensures r == (ListOf(St(), ExitedOf(p)) != [])
    {
      var s := List(ExitedOf(p));
      r := s != [];
    }

    /** The body of the walk's loop, with the walk at position k. */
    method Visit(c: nat, k: nat, ipc: bool)
      requires More(St(), c) && cpus[c].phase.kept == k
      modifies this
      ensures St() == CheckedNext(old(St()), c, ipc)
    {
      hide Wrap, Inserted;
      var w := List(WaitingOf(c));
      var task := Task(w[k]);
      var exited := HasExitedChild(w[k]);
      if (task.status == Sending || task.status == Receiving) && !ipc {
        cpus := cpus[c := cpus[c].(phase := Check(k + 1))];
        return;
      }
      if task.status == Waiting && !exited {
        cpus := cpus[c := cpus[c].(phase := Check(k + 1))];
        return;
      }
      ListRemove(WaitingOf(c), k);
      TaskUnblock(w[k]);
    }

    /** check_waiting_list; `ipc` answers task_ipc_check for one waiter after the other. */
    method CheckWaitingList(c: nat, ipc: seq<bool>)
      requires Walking(St(), c) && cpus[c].phase.kept == 0
      modifies this
      ensures St() == Walked(old(St()), c, ipc)
    {
      hide CheckedNext;
      var n := 0;
      var w := List(WaitingOf(c));
      assert ipc[0..] == ipc;
      while n < |ipc| && c in cpus && cpus[c].phase.Check? && cpus[c].phase.kept < |w|
        invariant n <= |ipc| && w == ListOf(St(), WaitingOf(c))
        invariant Walked(old(St()), c, ipc) == Walked(St(), c, ipc[n..])
        decreases |ipc| - n
      {
        Visit(c, cpus[c].phase.kept, ipc[n]);
        assert ipc[n..][1..] == ipc[n + 1..];
        n := n + 1;
        w := List(WaitingOf(c));
      }
    }

    method GetNextTask(c: nat) returns (next: nat)
      requires ListOf(WithWork(St(), c), ReadyOf(c)) != []
      modifies this
      ensures next == ListOf(WithWork(old(St()), c), ReadyOf(c))[0]
      ensures St() == Taken(WithWork(old(St()), c), c)
    {
      hide Wrap, Inserted;
      var s := List(ReadyOf(c));
      var k := Cpu(c);
      if s == [] {
        TaskUnblock(k.idle);
      }
      s := List(ReadyOf(c));
      next := s[0];
      var t := Task(next);
      ListRemove(ReadyOf(c), 0);
      k := Cpu(c);
      cpus := cpus[c := k.(running := Wrap(k.running - 1), weight := Wrap(k.weight - t.weight))];
    }

    /** inform_exit. */
    method InformExit(c: nat, p: nat)
      requires p == Current(St(), c) && c in cpus
      modifies this
      ensures St() == Informed(old(St()), c, TaskOf(old(St()), p).ppid)
    {
      var t := Task(p);
      cpus := cpus[c := cpus[c].(phase := Check(0))];
      var s := List(ExitedOf(t.ppid));
      ListIn(p, ExitedOf(t.ppid), |s|);
    }

    method PutToWait(c: nat, p: nat)
      modifies this
      ensures St() == Append(old(St()), p, WaitingOf(c))
    {
      var s := List(WaitingOf(c));
      ListIn(p, WaitingOf(c), |s|);
    }

    /** The switch of schedule(). */
    method LeaveCpu(c: nat)
      requires c in cpus
      modifies this
      ensures St() == PutAway(old(St()), c)
    {
      PutAwayIs(St(), c);
      hide PutAway, Inserted, Link;
      var p := cpus[c].current;
      var t := Task(p);
      cpus := cpus[c := cpus[c].(phase := Check(0))];
      match t.status {
        case Running => TaskListInsert(c, p);
        case Sending => PutToWait(c, p);
        case Receiving => PutToWait(c, p);
        case Waiting => PutToWait(c, p);
        case Died => InformExit(c, p);
        case _ =>
      }
    }

    /**
     schedule(), from the test of the preempt count to the switch of tasks, for a task of any status. While a spinlock
     is held nothing happens; otherwise the task goes to the list of its status before the next one is chosen.
     */
    method Schedule(c: nat, ipc: seq<bool>)
      requires c in cpus && Inv(GoTo(St(), c, Out))
      requires |ipc| == |ListOf(PutAway(St(), c), WaitingOf(c))|
      modifies this
      ensures TaskOf(old(St()), Current(old(St()), c)).preempt > 0 ==> St() == old(St())
      ensures TaskOf(old(St()), Current(old(St()), c)).preempt == 0 ==>
                && LeftOn(old(St()), PutAway(old(St()), c), Current(old(St()), c), c)
                && St() == Picked(Walked(PutAway(old(St()), c), c, ipc), c)
                && Inv(St()) && Runs(St(), c)
      ensures St() == Scheduled(old(St()), c, ipc)
    {
      var cur := Task(cpus[c].current);
      if cur.preempt > 0 {
        return;
      }
      ghost var st := St();
      PutAwayPlaces(st, c);
      hide Inv, PutAway, Walked, Walking, Picked, LeftOn;
      PutAwayKeeps(st, c);
      LeaveCpu(c);
      ghost var st1 := St();
      assert Inv(Walked(st1, c, ipc)) && Walking(Walked(st1, c, ipc), c) by {
        WalkExact(st1, c, ipc);
      }
      CheckWaitingList(c, ipc);
      PickNextKeeps(St(), c);
      EnterNext(c);
    }

    /** task_block, with the preempt count that it asserts: the task waits on the list of its new status. */
    method TaskBlock(c: nat, status: Status, ipc: seq<bool>)
      requires Inv(St()) && Runs(St(), c) && MayTake(St(), c, status) && tasks[Current(St(), c)].preempt == 0
      requires |ipc| == |ListOf(PutAway(Blocks(St(), c, status), c), WaitingOf(c))|
      modifies this
      ensures var blocked := Blocks(old(St()), c, status);
              && LeftOn(blocked, PutAway(blocked, c), Current(old(St()), c), c)
              && St() == Picked(Walked(PutAway(blocked, c), c, ipc), c)
      ensures Inv(St()) && Runs(St(), c)
    {
      ghost var st := St();
      BlocksKeeps(st, c, status);
      var p := cpus[c].current;
      tasks := tasks[p := tasks[p].(status := status)];
      assert GoTo(St(), c, Out) == Blocks(st, c, status);
      assert PutAway(St(), c) == PutAway(Blocks(st, c, status), c) by {
        assert GoTo(Blocks(st, c, status), c, Out) == GoTo(St(), c, Out);
      }
      hide Inv, PutAway, Walked, Picked, Blocks, LeftOn;
      LeftOnSame(St(), Blocks(st, c, status), PutAway(St(), c), p, c);
      Schedule(c, ipc);
    }

    /** task_yield, and the exit of an interrupt: a task that runs calls schedule(). */
    method TaskYield(c: nat, ipc: seq<bool>)
      requires Inv(St()) && Runs(St(), c)
      requires |ipc| == |ListOf(PutAway(St(), c), WaitingOf(c))|
      modifies this
      ensures Inv(St()) && Runs(St(), c)
      ensures old(tasks)[Current(old(St()), c)].preempt > 0 ==> St() == old(St())
      ensures old(tasks)[Current(old(St()), c)].preempt == 0 ==>
                && Current(old(St()), c) in ListOf(PutAway(old(St()), c), ReadyOf(c))
                && St() == Picked(Walked(PutAway(old(St()), c), c, ipc), c)
    {
      MayEnter(St(), c);
      RunsRunning(St(), c);
      hide Inv, PutAway, Walked, Picked;
      Schedule(c, ipc);
    }

    /** get_next_task and the switch. */
    method EnterNext(c: nat)
      requires Inv(St()) && Walking(St(), c)
      modifies this
      ensures St() == Picked(old(St()), c)
    {
      hide Inv, Taken, WithWork;
      WithWorkKeeps(St(), c);
      var next := GetNextTask(c);
      Switch(c, next);
    }

    /** The next task becomes the current one. */
    method Switch(c: nat, next: nat)
      modifies this
      ensures var st := old(St());
              var st1 := SetTask(st, next, TaskOf(st, next).(status := Running, cpu := c));
              St() == SetCpu(st1, c, CpuOf(st1, c).(current := next, phase := Run))
    {
      var t := Task(next);
      tasks := tasks[next := t.(status := Running, cpu := c)];
      var k := Cpu(c);
      cpus := cpus[c := k.(current := next, phase := Run)];
    }

    /** The second loop of main_task_adopt_child. */
    method GiveAwayExited(p: nat)
      requires Adopting(St(), p)
      modifies this
      ensures St() == Emptied(old(St()), p)
    {
      hide Adopting, AdoptedOne;
      var s := List(ExitedOf(p));
      while s != []
        invariant Adopting(St(), p) && s == ListOf(St(), ExitedOf(p))
        invariant Emptied(old(St()), p) == Emptied(St(), p)
        decreases |s|
      {
        AdoptedOneKeeps(St(), p);
        GiveOne(p);
        s := List(ExitedOf(p));
      }
    }

    method GiveOne(p: nat)
      requires ListOf(St(), ExitedOf(p)) != []
      modifies this
      ensures St() == AdoptedOne(old(St()), p)
    {
      var s := List(ExitedOf(p));
      ListRemove(ExitedOf(p), 0);
      var child := Task(s[0]);
      var k := Cpu(child.cpu);
      var exited := List(ExitedOf(k.main));
      ListIn(s[0], ExitedOf(k.main), |exited|);
    }

    /** The first loop: the task table from pid 0 up. */
    method GiveAwayChildren(p: nat)
      requires forall r :: r in tasks ==> r < TASKS
      modifies this
      ensures St() == Reparented(old(St()), p)
    {
      ghost var st := St();
      var i := 0;
      while i < TASKS
        invariant i <= TASKS && lists == st.lists && cpus == st.cpus && tasks.Keys == st.tasks.Keys
        invariant forall r :: r in tasks ==> tasks[r] == if r < i then Reparented(st, p).tasks[r] else st.tasks[r]
      {
        if i in tasks && tasks[i].ppid == p {
          var k := Cpu(tasks[i].cpu);
          tasks := tasks[i := tasks[i].(ppid := k.main)];
        }
        i := i + 1;
      }
    }
  }

  /** The place in schedule() does not matter to the list that a task is left on. */
  lemma LeftOnSame(st: State, st': State, st1: State, p: nat, c: nat)
    requires GoTo(st, c, Out) == st'
    ensures LeftOn(st, st1, p, c) <==> LeftOn(st', st1, p, c)
  {
  }

  lemma RunsRunning(st: State, c: nat)
    requires Inv(st) && Runs(st, c)
    ensures TaskOf(st, Current(st, c)).status == Running
  {
    assert CpuOk(st, c);
  }
}
