/** A CPU keeps running a task that holds a spinlock. */
module SchedulerHolds {
  import opened Scheduler
  import opened SchedulerSteps
  import opened SchedulerInvariant
  import opened SchedulerRuns
  import opened SchedulerEffects

  /** CPU c runs p, which holds a spinlock. */
  ghost predicate Holding(st: State, c: nat, p: nat) {
    && Runs(st, c) && Current(st, c) == p
    && st.tasks[p].preempt > 0 && st.tasks[p].status == Running && st.tasks[p].cpu == c
  }

  /** The steps of a CPU that leave its task where it is. */
  predicate Stays(step: Step) {
    step.Spawn? || step.Tick? || step.Preempt? || step.SemaWake? || step.Adopt? || step.Reap?
  }

  lemma OwnWalk(st: State, step: Step)
    requires Inv(st) && Enabled(st, step) && Stays(step)
    ensures SameWalk(st, Apply(st, step), step.c)
  {
    var c := step.c;
    hide Inv, SameWalk, KeepsSelves, KeepsHolds, KeepsParents, SameSelves, SameWaits, SameHolds, SameParents;
    match step
    case Spawn(_, p, w) => SpawnEffect(st, c, p, w, c);
    case Tick(_, v) => SelfEffect(st, Current(st, c), TaskOf(st, Current(st, c)).(vrun := v), c);
    case Preempt(_, n) => SelfEffect(st, Current(st, c), TaskOf(st, Current(st, c)).(preempt := n), c);
    case SemaWake(_, s) => WokenEffect(st, SemaOf(c, s), c);
    case Adopt(_) => AdoptEffect(st, c, c);
    case Reap(_) => ReapEffect(st, c, c);
  }

  lemma RunsOne(st: State, c: nat)
    requires Inv(st) && Runs(st, c)
    ensures st.tasks[Current(st, c)].status == Running && st.tasks[Current(st, c)].cpu == c
  {
    assert CpuOk(st, c);
  }

  lemma SameWalkRuns(st: State, st': State, c: nat)
    requires Inv(st') && Runs(st, c) && SameWalk(st, st', c)
    ensures Runs(st', c) && Current(st', c) == Current(st, c)
  {
    assert CpuOk(st', c);
  }

  /** Whatever step is taken on whatever CPU: c goes on running p, until p gives its last spinlock back. */
  lemma HolderStays(st: State, step: Step, c: nat, p: nat)
    requires Inv(st) && Enabled(st, step) && Holding(st, c, p) && step != Preempt(c, 0)
    ensures Holding(Apply(st, step), c, p)
    ensures !step.Preempt? ==> Apply(st, step).tasks[p].preempt == st.tasks[p].preempt
  {
    var st' := Apply(st, step);
    if step.c == c {
      assert Stays(step);
    }
    if step.Preempt? {
      RunsOne(st, step.c);
    }
    hide Inv, Apply, Enabled, SameWalk, KeepsSelves, KeepsWaits, KeepsParents;
    StepKeeps(st, step);
    StepEffect(st, step, c);
    if step.c == c {
      OwnWalk(st, step);
    }
    SameWalkRuns(st, st', c);
    RunsOne(st', c);
  }

  /** Over every run of all CPUs: as long as c's task holds a spinlock, c runs that task and no other. */
  lemma {:induction false} HolderStaysOn(before: seq<Step>, steps: seq<Step>, c: nat, p: nat)
    requires Holding(After(Boot, before), c, p) && Preempt(c, 0) !in steps
    ensures Holding(After(After(Boot, before), steps), c, p)
  {
    BootInv();
    RunKeeps(Boot, before);
    hide Inv, Holding, After;
    HolderStaysFrom(After(Boot, before), steps, c, p);
  }

  lemma {:induction false} HolderStaysFrom(st: State, steps: seq<Step>, c: nat, p: nat)
    requires Inv(st) && Holding(st, c, p) && Preempt(c, 0) !in steps
    ensures Holding(After(st, steps), c, p)
    decreases |steps|
  {
    hide Inv, Holding, Apply, Enabled;
    if steps != [] {
      if Enabled(st, steps[0]) {
        StepKeeps(st, steps[0]);
        HolderStays(st, steps[0], c, p);
      }
      HolderStaysFrom(if Enabled(st, steps[0]) then Apply(st, steps[0]) else st, steps[1..], c, p);
    }
  }
}
