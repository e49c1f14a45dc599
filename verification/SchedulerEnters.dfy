/** Where the calls of a task lead: into schedule(), and there to the list of the status that it takes. */
module SchedulerEnters {
  import Constants
  import opened Words
  import opened Scheduler
  import opened SchedulerSteps
  import opened SchedulerLists
  import opened SchedulerInvariant
  import opened SchedulerRuns
  import opened SchedulerWalk
  import V = SchedulerVisits

  /** The steps by which the task of CPU c enters schedule(). */
  predicate Enters(step: Step) {
    step.Yield? || step.Block? || step.Rest? || step.SemaWait? || step.Die?
  }

  /** The status with which it does. */
  function EntersWith(step: Step): Status
    requires Enters(step)
  {
    match step
    case Block(_, status) => status
    case Rest(_) => Blocked
    case SemaWait(_, _) => Blocked
    case Die(_) => Died
    case _ => Running
  }

  /** The task has the status, the CPU is at the entry of schedule(), and nothing else of either has changed. */
  lemma EntryIs(st: State, step: Step)
    requires Inv(st) && Enabled(st, step) && Enters(step)
    ensures var c, p, st' := step.c, Current(st, step.c), Apply(st, step);
            && c in st'.cpus && st'.cpus[c] == st.cpus[c].(phase := Out) && p in st'.tasks
            && st'.tasks[p] == st.tasks[p].(status := EntersWith(step), place := st'.tasks[p].place)
            && (!step.SemaWait? ==> st'.lists == st.lists)
            && (step.SemaWait? ==>
                  && st'.tasks[p].place == On(SemaOf(c, step.s))
                  && ListOf(st', SemaOf(c, step.s)) == ListOf(st, SemaOf(c, step.s)) + [p])
  {
    assert CpuOk(st, step.c);
    hide Inv;
    if step.SemaWait? {
      var q := ListOf(st, SemaOf(step.c, step.s));
      assert q[|q|..] == [] && q[..|q|] == q;
    }
  }

  lemma AfterTwo(st: State, a: Step, b: Step)
    ensures var st1 := if Enabled(st, a) then Apply(st, a) else st;
            After(st, [a, b]) == if Enabled(st1, b) then Apply(st1, b) else st1
  {
    hide Enabled, Apply, After;
    assert [a, b] == [a] + [b];
    V.Then(st, a, [b]);
    V.Last(if Enabled(st, a) then Apply(st, a) else st, b);
  }

  lemma InformIs(st1: State, c: nat)
    requires c in st1.cpus
    ensures (if Enabled(st1, Inform(c)) then Apply(st1, Inform(c)) else st1)
         == if CpuOf(st1, c).phase.Dying? then Informed(st1, c, CpuOf(st1, c).phase.q) else st1
  {
    hide Informed;
  }

  /** The two steps by which a CPU gets from the entry of schedule() to its walk. */
  lemma LeavingIs(st: State, c: nat)
    requires c in st.cpus && st.cpus[c].phase == Out
    ensures After(st, [SwitchOut(c), Inform(c)]) == PutAway(st, c)
  {
    assert GoTo(st, c, Out) == st;
    assert Enabled(st, SwitchOut(c));
    SwitchedPhase(st, c);
    hide SwitchedOut, Informed, GoTo, After;
    AfterTwo(st, SwitchOut(c), Inform(c));
    InformIs(SwitchedOut(st, c), c);
  }

  lemma SwitchedPhase(st: State, c: nat)
    requires c in st.cpus
    ensures c in SwitchedOut(st, c).cpus
  {
    hide InsertPos, Before, Wrap;
  }

  /**
   Every call that gives the CPU up: it enters schedule() with its status, and when CPU c begins its walk the task is on
   the list of that status: ready, at the end of the waiting list, at the end of the semaphore's queue, or at the end of
   its parent's list of exited children.
   */
  lemma GivesUpCpu(st: State, step: Step)
    requires Inv(st) && Enabled(st, step) && Enters(step)
    ensures var c, p, st1 := step.c, Current(st, step.c), Apply(st, step);
            var st2 := After(st1, [SwitchOut(c), Inform(c)]);
            && Inv(st2) && Walking(st2, c) && TaskOf(st1, p).status == EntersWith(step) && LeftOn(st1, st2, p, c)
            && (step.SemaWait? ==> ListOf(st2, SemaOf(c, step.s)) == ListOf(st, SemaOf(c, step.s)) + [p])
  {
    var c, st1 := step.c, Apply(st, step);
    EntryIs(st, step);
    StepKeeps(st, step);
    LeavingIs(st1, c);
    assert GoTo(st1, c, Out) == st1;
    hide Inv, Apply, Enabled, PutAway, After;
    PutAwayPlaces(st1, c);
    PutAwayKeeps(st1, c);
  }

  // ---------------------------------------------------------------- new tasks

  /** task_start: the new task is ready, on the list of the CPU that started it. */
  lemma SpawnedIsReady(st: State, c: nat, p: nat, w: Word)
    requires Inv(st) && Enabled(st, Spawn(c, p, w))
    ensures var st' := Apply(st, Spawn(c, p, w));
            && p in st'.tasks && st'.tasks[p].status == Ready && p in ListOf(st', ReadyOf(c))
            && st'.tasks[p].ppid == Current(st, c) && st'.tasks[p].weight == w && !st'.tasks[p].resident
  {
    NotYetListed(st, p, ReadyOf(c));
    hide Inv, InsertPos, Before, Wrap;
    var t := Task(Ready, c, Current(st, c), 0, 0, w, false, false, Nowhere);
    InsertedHolds(SetTask(st, p, t), c, p);
  }

  lemma NotYetListed(st: State, p: nat, l: ListId)
    requires Inv(st) && p !in st.tasks
    ensures p !in ListOf(st, l)
  {
    assert Holds(st, l);
  }

  /** A CPU starts: it runs its main task, and its idle task is ready. */
  lemma StartedRuns(st: State, step: Step)
    requires Inv(st) && step.StartCpu? && Enabled(st, step)
    ensures var st' := Apply(st, step);
            && Runs(st', step.c) && Current(st', step.c) == step.main && st'.tasks[step.main].status == Running
            && st'.tasks[step.main].resident && st'.cpus[step.c].main == step.main && st'.cpus[step.c].idle == step.idle
            && step.idle in ListOf(st', ReadyOf(step.c)) && TaskOf(st', step.idle).status == Ready
  {
    var StartCpu(c, main, idle, parent, w, wIdle) := step;
    NotYetListed(st, idle, ReadyOf(c));
    hide Inv, InsertPos, Before, Wrap;
    var st1 := SetTask(st, main, Task(Running, c, parent, 0, 0, w, true, false, Nowhere));
    var st2 := SetCpu(st1, c, Cpu(0, 0, main, idle, main, Run));
    InsertedHolds(SetTask(st2, idle, Task(Ready, c, main, 0, 0, wIdle, false, false, Nowhere)), c, idle);
  }

  /** From start-up: any CPU can be started. */
  lemma FirstCpu(c: nat, main: nat, idle: nat, w: Word, wIdle: Word)
    requires main < Constants.TASKS && idle < Constants.TASKS && main != idle
    ensures Enabled(Boot, StartCpu(c, main, idle, main, w, wIdle))
  {
  }
}
