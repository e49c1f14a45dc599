/** Every step of the scheduler, and so every run, keeps the invariant. */
module SchedulerSafety {
  import opened Constants
  import opened Words
  import opened Scheduler
  import opened SchedulerSteps
  import opened SchedulerLists
  import opened SchedulerInvariant

  // ---------------------------------------------------------------- the current task's own record

  /** Only virtual times and preempt counts differ. */
  ghost predicate SameMarks(st: State, st': State) {
    && st'.lists == st.lists && st'.cpus == st.cpus && st'.tasks.Keys == st.tasks.Keys
    && forall p :: p in st.tasks ==>
         st'.tasks[p] == st.tasks[p].(vrun := st'.tasks[p].vrun, preempt := st'.tasks[p].preempt)
  }

  lemma MarksTaskOk(st: State, st': State, p: nat)
    requires TaskOk(st, p) && SameMarks(st, st')
    ensures TaskOk(st', p)
  {
  }

  lemma MarksCpuOk(st: State, st': State, c: nat)
    requires CpuOk(st, c) && SameMarks(st, st')
    ensures CpuOk(st', c)
  {
    hide Wrap, SumOf;
    SumSame(st, st', ListOf(st, ReadyOf(c)));
  }

  lemma MarksKeep(st: State, st': State)
    requires Inv(st) && SameMarks(st, st')
    ensures Inv(st')
  {
    hide Listed, TaskOk, CpuOk;
    ListedSame(st, st');
    forall p
      ensures TaskOk(st', p)
    {
      MarksTaskOk(st, st', p);
    }
    forall c
      ensures CpuOk(st', c)
    {
      MarksCpuOk(st, st', c);
    }
  }

  /** A status that the current task of CPU c may take when it enters schedule(). */
  ghost predicate MayTake(st: State, c: nat, status: Status)
    requires Runs(st, c)
  {
    && (status in {Sending, Receiving, Waiting, Died} ==> Current(st, c) != st.cpus[c].idle)
    && status != Ready && (status == Blocked ==> Current(st, c) == st.cpus[c].idle)
    && (status == Died ==> st.tasks[Current(st, c)].leaving)
  }

  lemma BlocksTaskOk(st: State, c: nat, status: Status, q: nat)
    requires Runs(st, c) && CpuOk(st, c) && TaskOk(st, q)
    ensures TaskOk(Blocks(st, c, status), q)
  {
    hide CountersOk;
  }

  lemma BlocksOwnCpuOk(st: State, c: nat, status: Status)
    requires Runs(st, c) && CpuOk(st, c) && MayTake(st, c, status)
    ensures CpuOk(Blocks(st, c, status), c)
  {
    hide Wrap, SumOf;
    SumSame(st, Blocks(st, c, status), ListOf(st, ReadyOf(c)));
  }

  /** A CPU other than the one whose task changes. */
  lemma ElsewhereOk(st: State, st': State, p: nat, d: nat)
    requires Touched(st, st', p) && st'.lists == st.lists && CpuOk(st, d) && st.tasks[p].cpu != d
    requires d in st'.cpus <==> d in st.cpus
    requires d in st.cpus ==> st'.cpus[d] == st.cpus[d]
    ensures CpuOk(st', d)
  {
    hide Wrap, SumOf;
    SumSame(st, st', ListOf(st, ReadyOf(d)));
  }

  lemma BlocksTouches(st: State, c: nat, status: Status)
    requires Runs(st, c) && CpuOk(st, c)
    ensures var p, st' := Current(st, c), Blocks(st, c, status);
            && Touched(st, st', p) && SameLists(st, st') && st.tasks[p].cpu == c
            && st'.cpus.Keys == st.cpus.Keys && forall d :: d in st.cpus && d != c ==> st'.cpus[d] == st.cpus[d]
  {
    hide CountersOk;
  }

  /** CPU c's current task gets a new status and c enters schedule(). */
  lemma BlocksKeeps(st: State, c: nat, status: Status)
    requires Inv(st) && Runs(st, c) && MayTake(st, c, status)
    ensures Inv(Blocks(st, c, status))
  {
    hide Listed, TaskOk, CpuOk, Blocks, Touched;
    var st' := Blocks(st, c, status);
    BlocksTouches(st, c, status);
    ListedSame(st, st');
    forall q
      ensures TaskOk(st', q)
    {
      BlocksTaskOk(st, c, status, q);
    }
    forall d
      ensures CpuOk(st', d)
    {
      if d == c {
        BlocksOwnCpuOk(st, c, status);
      } else {
        ElsewhereOk(st, st', Current(st, c), d);
      }
    }
  }

  // ---------------------------------------------------------------- entering the walk

  /** A CPU moves on within schedule(), and abandons its current task only if that is listed, or idle and at rest. */
  lemma PhaseKeeps(st: State, c: nat, phase: Phase)
    requires Inv(st) && c in st.cpus && PhaseOk(st, c, st.cpus[c].(phase := phase))
    requires phase.Check? && !st.cpus[c].phase.Check? ==>
               var t := TaskOf(st, Current(st, c));
               t.place.On? || (Current(st, c) == st.cpus[c].idle && t.status == Blocked)
    ensures Inv(GoTo(st, c, phase))
  {
    hide Wrap, SumOf, Listed, Holds;
    var st' := GoTo(st, c, phase);
    ListedSame(st, st');
    forall q
      ensures TaskOk(st', q)
    {
      assert TaskOk(st, q);
    }
    forall d
      ensures CpuOk(st', d)
    {
      assert CpuOk(st, d);
      SumSame(st, st', ListOf(st, ReadyOf(d)));
    }
  }

  /** The current task has its status set and CPU c begins the walk. */
  function Leaves(st: State, c: nat, status: Status): State {
    GoTo(SetTask(st, Current(st, c), TaskOf(st, Current(st, c)).(status := status)), c, Check(0))
  }

  lemma LeavesTaskOk(st: State, c: nat, status: Status, q: nat)
    requires c in st.cpus && Current(st, c) in st.tasks && TaskOk(st, q) && q != Current(st, c)
    ensures TaskOk(Leaves(st, c, status), q)
  {
  }

  lemma LeavesOwnCpuOk(st: State, c: nat, status: Status)
    requires c in st.cpus && CpuOk(st, c) && Current(st, c) in st.tasks
    ensures CpuOk(Leaves(st, c, status), c)
  {
    hide Wrap, SumOf;
    SumSame(st, Leaves(st, c, status), ListOf(st, ReadyOf(c)));
  }

  lemma LeavesTouches(st: State, c: nat, status: Status)
    requires c in st.cpus && CpuOk(st, c) && !st.cpus[c].phase.Check?
    ensures var p, st' := Current(st, c), Leaves(st, c, status);
            && p in st.tasks && Touched(st, st', p) && SameLists(st, st') && st.tasks[p].cpu == c
            && st'.cpus.Keys == st.cpus.Keys && forall d :: d in st.cpus && d != c ==> st'.cpus[d] == st.cpus[d]
  {
    hide CountersOk;
  }

  lemma LeavesFree(st: State, c: nat, status: Status)
    requires c in st.cpus && CpuOk(st, c) && !st.cpus[c].phase.Check? && TaskOk(st, Current(st, c))
    requires TaskOf(st, Current(st, c)).place == Nowhere
    ensures var p, st' := Current(st, c), Leaves(st, c, status);
            && p in st'.tasks && p < TASKS && st'.tasks[p].place == Nowhere && st'.tasks[p].cpu in st'.cpus
            && ParentOk(st', st'.tasks[p]) && !Executes(st'.cpus[st'.tasks[p].cpu], p)
  {
    hide CountersOk;
  }

  /** The current task, on no list, as the walk begins: `st` with its status set. */
  lemma CurrentLoose(st: State, c: nat, status: Status)
    requires Inv(st) && c in st.cpus && !st.cpus[c].phase.Check?
    requires TaskOf(st, Current(st, c)).place == Nowhere
    ensures Loose(Leaves(st, c, status), Current(st, c))
  {
    hide Listed, TaskOk, CpuOk, Leaves, Touched, ParentOk, Executes;
    var p, st' := Current(st, c), Leaves(st, c, status);
    LeavesTouches(st, c, status);
    LeavesFree(st, c, status);
    ListedSame(st, st');
    forall q | q != p
      ensures TaskOk(st', q)
    {
      LeavesTaskOk(st, c, status, q);
    }
    forall d
      ensures CpuOk(st', d)
    {
      if d == c {
        LeavesOwnCpuOk(st, c, status);
      } else {
        ElsewhereOk(st, st', p, d);
      }
    }
  }

  lemma SameStatus(st: State, p: nat)
    requires p in st.tasks
    ensures SetTask(st, p, TaskOf(st, p).(status := TaskOf(st, p).status)) == st
  {
  }

  lemma SwitchOutKeeps(st: State, c: nat)
    requires Inv(st) && Enabled(st, SwitchOut(c))
    ensures Inv(SwitchedOut(st, c))
  {
    hide Wrap, Listed, Inserted, Append;
    var p := Current(st, c);
    var t := TaskOf(st, p);
    assert CpuOk(st, c) && TaskOk(st, p);
    SameStatus(st, p);
    if t.status == Died {
      PhaseKeeps(st, c, Dying(t.ppid));
    } else if t.status == Blocked {
      PhaseKeeps(st, c, Check(0));
    } else {
      CurrentLoose(st, c, t.status);
      var st1 := GoTo(st, c, Check(0));
      if t.status == Running {
        LooseInsert(st1, p);
      } else {
        LooseAppend(st1, p, WaitingOf(c));
      }
    }
  }

  /**
   An exiting task reaches its parent's list: what inform_exit read before taking the lock still is its parent,
   because a parent that can exit is on the same CPU.
   */
  lemma InformKeeps(st: State, c: nat)
    requires Inv(st) && Enabled(st, Inform(c))
    ensures Inv(Apply(st, Inform(c))) && st.cpus[c].phase.q == TaskOf(st, Current(st, c)).ppid
  {
    hide Wrap, Listed;
    var q, p := st.cpus[c].phase.q, Current(st, c);
    assert CpuOk(st, c) && TaskOk(st, p);
    SameStatus(st, p);
    CurrentLoose(st, c, TaskOf(st, p).status);
    LooseAppend(GoTo(st, c, Check(0)), p, ExitedOf(q));
  }

  // ---------------------------------------------------------------- waiting, waking, checking

  lemma SemaWaitKeeps(st: State, c: nat, s: nat)
    requires Inv(st) && Enabled(st, SemaWait(c, s))
    ensures Inv(Apply(st, SemaWait(c, s)))
  {
    hide Wrap, Listed;
    var p := Current(st, c);
    assert CpuOk(st, c) && TaskOk(st, p);
    CurrentLoose(st, c, Blocked);
    var st1 := GoTo(SetTask(st, p, TaskOf(st, p).(status := Blocked)), c, Check(0));
    LooseAppend(st1, p, SemaOf(c, s));
    var st2 := Append(st1, p, SemaOf(c, s));
    PhaseKeeps(st2, c, Out);
    assert GoTo(st2, c, Out).tasks == Apply(st, SemaWait(c, s)).tasks;
    assert GoTo(st2, c, Out).cpus == Apply(st, SemaWait(c, s)).cpus;
  }

  lemma SemaWakeKeeps(st: State, c: nat, s: nat)
    requires Inv(st) && Enabled(st, SemaWake(c, s))
    ensures Inv(Woken(st, SemaOf(c, s)))
  {
    hide Inv, Loose, Inserted;
    if ListOf(st, SemaOf(c, s)) != [] {
      UnlinkLoose(st, SemaOf(c, s), 0);
      LooseInsert(Unlink(st, SemaOf(c, s), 0), ListOf(st, SemaOf(c, s))[0]);
    }
  }

  lemma CheckNextKeeps(st: State, c: nat, ipc: bool)
    requires Inv(st) && Enabled(st, CheckNext(c, ipc))
    ensures Inv(CheckedNext(st, c, ipc))
  {
    var k, l := st.cpus[c].phase.kept, WaitingOf(c);
    if Stays(st, ListOf(st, l)[k], ipc) {
      assert CpuOk(st, c);
      PhaseKeeps(st, c, Check(k + 1));
    } else {
      hide Inv, Loose, Inserted;
      UnlinkLoose(st, l, k);
      LooseInsert(Unlink(st, l, k), ListOf(st, l)[k]);
    }
  }

  // ---------------------------------------------------------------- picking the next task

  /** The idle task stands in when nothing is ready. */
  lemma WithWorkKeeps(st: State, c: nat)
    requires Inv(st) && Walking(st, c)
    ensures Inv(WithWork(st, c)) && Walking(WithWork(st, c), c) && ListOf(WithWork(st, c), ReadyOf(c)) != []
  {
    if ListOf(st, ReadyOf(c)) == [] {
      var idle := st.cpus[c].idle;
      assert CpuOk(st, c) && TaskOk(st, idle) && Found(st, idle);
      assert Loose(st, idle);
      InsertedIs(st, idle);
      hide Wrap, Inserted, Inv, Loose;
      LooseInsert(st, idle);
    }
  }

  lemma SwitchedIs(st: State, c: nat)
    requires ListOf(st, ReadyOf(c)) != [] && c in st.cpus
    ensures var s, k, st' := ListOf(st, ReadyOf(c)), st.cpus[c], Switched(st, c);
            var t := TaskOf(st, s[0]);
            && st'.tasks == st.tasks[s[0] := t.(status := Running, cpu := c, place := Nowhere)]
            && st'.lists == st.lists[ReadyOf(c) := s[1..]]
            && st'.cpus == st.cpus[c := k.(running := Wrap(k.running - 1), weight := Wrap(k.weight - t.weight),
                                           current := s[0], phase := Run)]
  {
    hide Wrap;
    var s := ListOf(st, ReadyOf(c));
    assert s[..0] + s[1..] == s[1..];
  }

  lemma SwitchedCounters(st: State, c: nat)
    requires ListOf(st, ReadyOf(c)) != [] && c in st.cpus && CountersOk(st, c, st.cpus[c])
    ensures CountersOk(Switched(st, c), c, CpuOf(Switched(st, c), c))
  {
    var s, st' := ListOf(st, ReadyOf(c)), Switched(st, c);
    SwitchedIs(st, c);
    hide Wrap, Switched;
    SumSame(st, st', s[1..]);
    var w: int := TaskOf(st, s[0]).weight;
    WrapStep(|s|, -1);
    WrapStep(SumOf(st, s), 0 - w);
  }

  lemma SwitchedCpuOk(st: State, c: nat, d: nat)
    requires CpuOk(st, c) && CpuOk(st, d) && Walking(st, c) && ListOf(st, ReadyOf(c)) != []
    requires var n := ListOf(st, ReadyOf(c))[0];
             n in st.tasks && st.tasks[n].cpu == c && st.tasks[n].place == On(ReadyOf(c)) && st.tasks[n].status == Ready
    ensures CpuOk(Switched(st, c), d)
  {
    SwitchedCounters(st, c);
    SwitchedIs(st, c);
    hide Wrap, Switched, SumOf;
    if d != c {
      SumSame(st, Switched(st, c), ListOf(st, ReadyOf(d)));
    } else {
      hide CountersOk;
    }
  }

  lemma SwitchedKeeps(st: State, c: nat)
    requires Inv(st) && Walking(st, c) && ListOf(st, ReadyOf(c)) != []
    ensures Inv(Switched(st, c)) && Runs(Switched(st, c), c)
  {
    var s, st' := ListOf(st, ReadyOf(c)), Switched(st, c);
    UnlinkListed(st, ReadyOf(c), 0);
    assert Listed(st') by {
      hide Listed, Wrap, Holds;
      ListedSame(Unlink(st, ReadyOf(c), 0), st');
    }
    SwitchedIs(st, c);
    assert TaskOk(st, s[0]);
    hide Wrap, Switched, Listed, SumOf, Holds, CountersOk;
    forall q
      ensures TaskOk(st', q)
    {
      assert TaskOk(st, q);
    }
    forall d
      ensures CpuOk(st', d)
    {
      assert CpuOk(st, c) && CpuOk(st, d);
      SwitchedCpuOk(st, c, d);
    }
  }

  lemma PickNextKeeps(st: State, c: nat)
    requires Inv(st) && Walking(st, c)
    ensures Inv(Picked(st, c)) && Runs(Picked(st, c), c)
  {
    hide Inv, WithWork, Switched;
    WithWorkKeeps(st, c);
    SwitchedKeeps(WithWork(st, c), c);
  }

  // ---------------------------------------------------------------- tasks and CPUs come and go

  lemma FreshLoose(st: State, p: nat, t: Task)
    requires Inv(st) && p !in st.tasks && t.place == Nowhere && t.cpu in st.cpus && ParentOk(st, t) && p < TASKS
    ensures Loose(SetTask(st, p, t), p)
  {
    hide Wrap, SumOf;
    var st' := SetTask(st, p, t);
    FreshListed(st, p, t);
    forall q | q != p
      ensures TaskOk(st', q)
    {
      assert TaskOk(st, q);
    }
    forall c
      ensures CpuOk(st', c)
    {
      assert CpuOk(st, c) && Holds(st, ReadyOf(c));
      SumSame(st, st', ListOf(st, ReadyOf(c)));
    }
    assert CpuOk(st, t.cpu);
  }

  lemma FreshListed(st: State, p: nat, t: Task)
    requires Listed(st) && p !in st.tasks && t.place == Nowhere
    ensures Listed(SetTask(st, p, t))
  {
    var st' := SetTask(st, p, t);
    forall l
      ensures Holds(st', l)
    {
      assert Holds(st, l);
    }
    forall q
      ensures Found(st', q)
    {
      assert Found(st, q);
    }
  }

  lemma SpawnKeeps(st: State, c: nat, p: nat, w: Word)
    requires Inv(st) && Enabled(st, Spawn(c, p, w))
    ensures Inv(Apply(st, Spawn(c, p, w)))
  {
    hide Wrap, Inserted, Loose;
    var t := Task(Ready, c, Current(st, c), 0, 0, w, false, false, Nowhere);
    assert CpuOk(st, c);
    FreshLoose(st, p, t);
    LooseInsert(SetTask(st, p, t), p);
  }
}
