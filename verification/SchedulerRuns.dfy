/** Whole runs of the scheduler. */
module SchedulerRuns {
  import opened Constants
  import opened Sequences
  import opened Words
  import opened Scheduler
  import opened SchedulerSteps
  import opened SchedulerLists
  import opened SchedulerInvariant
  import opened SchedulerSafety
  import opened SchedulerExit

  const Boot: State := State(map[], map[], map[])

  lemma BootInv()
    ensures Inv(Boot)
  {
  }

  /** Every step of every CPU keeps the invariant. */
  lemma StepKeeps(st: State, step: Step)
    requires Inv(st) && Enabled(st, step)
    ensures Inv(Apply(st, step))
  {
    hide Inv;
    match step
    case StartCpu(_, _, _, _, _, _) => StartCpuKeeps(st, step);
    case Spawn(c, p, w) => SpawnKeeps(st, c, p, w);
    case Tick(_, _) => MarksKeep(st, Apply(st, step));
    case Preempt(_, _) => MarksKeep(st, Apply(st, step));
    case Yield(c) => YieldKeeps(st, c);
    case Block(c, status) => BlocksKeeps(st, c, status);
    case Rest(c) => BlocksKeeps(st, c, Blocked);
    case SemaWait(c, s) => SemaWaitKeeps(st, c, s);
    case SemaWake(c, s) => SemaWakeKeeps(st, c, s);
    case Adopt(c) => AdoptKeeps(st, c);
    case Die(c) => DieKeeps(st, c);
    case Reap(c) => ReapKeeps(st, c);
    case SwitchOut(c) => SwitchOutKeeps(st, c);
    case Inform(c) => InformKeeps(st, c);
    case CheckNext(c, ipc) => CheckNextKeeps(st, c, ipc);
    case PickNext(c) => PickNextKeeps(st, c);
  }

  lemma YieldKeeps(st: State, c: nat)
    requires Inv(st) && Runs(st, c)
    ensures Inv(GoTo(st, c, Out))
  {
    assert CpuOk(st, c);
    PhaseKeeps(st, c, Out);
  }

  lemma DieKeeps(st: State, c: nat)
    requires Inv(st) && Enabled(st, Die(c))
    ensures Inv(Blocks(st, c, Died))
  {
    BlocksKeeps(st, c, Died);
  }

  function After(st: State, steps: seq<Step>): State
    decreases |steps|
  {
    if steps == [] then st else After(if Enabled(st, steps[0]) then Apply(st, steps[0]) else st, steps[1..])
  }

  lemma {:induction false} RunKeeps(st: State, steps: seq<Step>)
    requires Inv(st)
    ensures Inv(After(st, steps))
    decreases |steps|
  {
    hide Inv, Apply, Enabled;
    if steps != [] {
      if Enabled(st, steps[0]) {
        StepKeeps(st, steps[0]);
        RunKeeps(Apply(st, steps[0]), steps[1..]);
      } else {
        RunKeeps(st, steps[1..]);
      }
    }
  }

  // ---------------------------------------------------------------- what the invariant means

  /** Which statuses a list holds. */
  predicate Matches(l: ListId, status: Status) {
    match l
    case ReadyOf(_) => status == Ready
    case WaitingOf(_) => status in {Sending, Receiving, Waiting}
    case SemaOf(_, _) => status == Blocked
    case ExitedOf(_) => status == Died
  }

  /**
   In every state of every run, over all interleavings of all CPUs: a node is on at most one list and at one
   position of it, and the list is one of its task's own CPU, or its parent's, that matches its status.
   */
  lemma AtMostOneList(steps: seq<Step>, l: ListId, i: nat, l': ListId, j: nat)
    ensures var st := After(Boot, steps);
            i < |ListOf(st, l)| && j < |ListOf(st, l')| && ListOf(st, l)[i] == ListOf(st, l')[j] ==>
              var t := TaskOf(st, ListOf(st, l)[i]);
              && l == l' && i == j && ListOf(st, l)[i] in st.tasks && Matches(l, t.status)
              && (l.ExitedOf? ==> l.q == t.ppid) && (!l.ExitedOf? ==> l.c == t.cpu)
  {
    BootInv();
    RunKeeps(Boot, steps);
    var st := After(Boot, steps);
    assert Holds(st, l) && Holds(st, l');
    if i < |ListOf(st, l)| && j < |ListOf(st, l')| && ListOf(st, l)[i] == ListOf(st, l')[j] {
      assert ListOf(st, l)[i] in ListOf(st, l) && ListOf(st, l')[j] in ListOf(st, l');
      assert TaskOk(st, ListOf(st, l)[i]);
    }
  }

  /** No task is lost: one that is on no list is executing on its CPU, or is the idle task at rest. */
  lemma NobodyIsLost(steps: seq<Step>, p: nat)
    requires p in After(Boot, steps).tasks
    ensures var st := After(Boot, steps);
            var k := CpuOf(st, st.tasks[p].cpu);
            || (exists l :: p in ListOf(st, l))
            || (k.current == p && !k.phase.Check?) || (k.idle == p && st.tasks[p].status == Blocked)
  {
    BootInv();
    RunKeeps(Boot, steps);
    var st := After(Boot, steps);
    assert TaskOk(st, p) && Found(st, p);
    if st.tasks[p].place.On? {
      assert p in ListOf(st, st.tasks[p].place.l);
    }
  }

  /** running_tasks is the length of task_list, exactly, and total_weight its weight sum, modulo 2^64. */
  lemma CountersMatch(steps: seq<Step>, c: nat)
    requires c in After(Boot, steps).cpus
    ensures var st := After(Boot, steps);
            && st.cpus[c].running == |ListOf(st, ReadyOf(c))| <= TASKS
            && st.cpus[c].weight == Wrap(SumOf(st, ListOf(st, ReadyOf(c))))
  {
    hide SumOf;
    BootInv();
    RunKeeps(Boot, steps);
    var st := After(Boot, steps);
    assert CpuOk(st, c) && Holds(st, ReadyOf(c));
    var s := ListOf(st, ReadyOf(c));
    forall p | p in s
      ensures p < TASKS
    {
      assert TaskOk(st, p);
    }
    Pigeonhole(s, TASKS);
    WrapSmall(|s|);
  }

  /** A CPU inside schedule() gets out: its walk ends, and then some task, the idle one at worst, runs. */
  lemma SomeTaskRuns(steps: seq<Step>, c: nat)
    requires Enabled(After(Boot, steps), PickNext(c))
    ensures var st' := Apply(After(Boot, steps), PickNext(c));
            Runs(st', c) && TaskOf(st', st'.cpus[c].current).status == Running && Inv(st')
  {
    BootInv();
    RunKeeps(Boot, steps);
    PickNextKeeps(After(Boot, steps), c);
    assert CpuOk(Apply(After(Boot, steps), PickNext(c)), c);
  }
}
