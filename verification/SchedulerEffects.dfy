/** What a step leaves alone: a task's CPU, weight, clock, preempt count and parent, and the walks of other CPUs. */
module SchedulerEffects {
  import opened Words
  import opened Scheduler
  import opened SchedulerSteps
  import opened SchedulerLists
  import opened SchedulerInvariant
  import opened SchedulerSafety
  import opened SchedulerExit

  /** No task is new, and each keeps its CPU and weight. */
  ghost predicate SameSelves(st: State, st': State) {
    forall p :: p in st'.tasks ==>
        p in st.tasks && st'.tasks[p].cpu == st.tasks[p].cpu && st'.tasks[p].weight == st.tasks[p].weight
  }

  /** The statuses that a task on a waiting list can have. */
  predicate WaitLike(status: Status) {
    status == Sending || status == Receiving || status == Waiting
  }

  /** No task has begun to wait. */
  ghost predicate SameWaits(st: State, st': State) {
    forall p :: p in st'.tasks && WaitLike(st'.tasks[p].status) ==>
      p in st.tasks && st.tasks[p].status == st'.tasks[p].status
  }

  /** The preempt counts and the clocks are as they were. */
  ghost predicate SameHolds(st: State, st': State) {
    forall p :: p in st.tasks && p in st'.tasks ==>
      st'.tasks[p].preempt == st.tasks[p].preempt && st'.tasks[p].vrun == st.tasks[p].vrun
  }

  ghost predicate SameParents(st: State, st': State) {
    forall p :: p in st.tasks && p in st'.tasks ==> st'.tasks[p].ppid == st.tasks[p].ppid
  }

  ghost predicate SameTasks(st: State, st': State) {
    SameSelves(st, st') && SameWaits(st, st') && SameHolds(st, st') && SameParents(st, st')
  }

  /** CPU c's waiting list, its current task and its place in schedule() are as they were. */
  ghost predicate SameWalk(st: State, st': State, c: nat) {
    && ListOf(st', WaitingOf(c)) == ListOf(st, WaitingOf(c))
    && (c in st.cpus ==>
          c in st'.cpus && st'.cpus[c].phase == st.cpus[c].phase && st'.cpus[c].current == st.cpus[c].current)
  }

  lemma LinkEffect(st: State, p: nat, l: ListId, i: nat, c: nat)
    requires p in st.tasks
    ensures SameTasks(st, Link(st, p, l, i)) && (l != WaitingOf(c) ==> SameWalk(st, Link(st, p, l, i), c))
    ensures Link(st, p, l, i).tasks.Keys == st.tasks.Keys
  {
  }

  lemma AppendEffect(st: State, p: nat, l: ListId, c: nat)
    requires p in st.tasks
    ensures SameTasks(st, Append(st, p, l)) && (l != WaitingOf(c) ==> SameWalk(st, Append(st, p, l), c))
  {
    hide Link, SameTasks, SameWalk;
    LinkEffect(st, p, l, |ListOf(st, l)|, c);
  }

  lemma UnlinkEffect(st: State, l: ListId, i: nat, c: nat)
    requires i < |ListOf(st, l)| && ListOf(st, l)[i] in st.tasks
    ensures SameTasks(st, Unlink(st, l, i)) && (l != WaitingOf(c) ==> SameWalk(st, Unlink(st, l, i), c))
    ensures Unlink(st, l, i).tasks.Keys == st.tasks.Keys
  {
  }

  lemma Chained(st: State, st1: State, st2: State, c: nat)
    ensures SameTasks(st, st1) && SameTasks(st1, st2) ==> SameTasks(st, st2)
    ensures SameWalk(st, st1, c) && SameWalk(st1, st2, c) ==> SameWalk(st, st2, c)
  {
  }

  lemma ReadyEffect(st: State, p: nat, c: nat)
    requires p in st.tasks
    ensures var st' := SetTask(st, p, TaskOf(st, p).(status := Ready));
            SameTasks(st, st') && SameWalk(st, st', c) && st'.tasks.Keys == st.tasks.Keys
  {
  }

  lemma CountersEffect(st: State, d: nat, k: Cpu, c: nat)
    requires k.phase == CpuOf(st, d).phase && k.current == CpuOf(st, d).current
    ensures SameTasks(st, SetCpu(st, d, k)) && SameWalk(st, SetCpu(st, d, k), c)
  {
  }

  lemma InsertedEffect(st: State, d: nat, p: nat, c: nat)
    requires p in st.tasks
    ensures SameTasks(st, Inserted(st, d, p)) && SameWalk(st, Inserted(st, d, p), c)
    ensures Inserted(st, d, p).tasks.Keys == st.tasks.Keys
  {
    hide Wrap, InsertPos, Link, SameTasks, SameWalk;
    var s, k := ListOf(st, ReadyOf(d)), CpuOf(st, d);
    if p in s {
      NoEffect(st, c);
    } else {
      var st1 := Link(st, p, ReadyOf(d), InsertPos(st, s, TaskOf(st, p).vrun));
      var st2 := SetTask(st1, p, TaskOf(st1, p).(status := Ready));
      LinkEffect(st, p, ReadyOf(d), InsertPos(st, s, TaskOf(st, p).vrun), c);
      LinkCpus(st, p, ReadyOf(d), InsertPos(st, s, TaskOf(st, p).vrun));
      ReadyEffect(st1, p, c);
      CountersEffect(st2, d, k.(running := Wrap(k.running + 1), weight := Wrap(k.weight + TaskOf(st, p).weight)), c);
      Chained(st, st1, st2, c);
      Chained(st, st2, Inserted(st, d, p), c);
    }
  }

  lemma NoEffect(st: State, c: nat)
    ensures SameTasks(st, st) && SameWalk(st, st, c)
  {
  }

  lemma LinkCpus(st: State, p: nat, l: ListId, i: nat)
    ensures Link(st, p, l, i).cpus == st.cpus
  {
  }

  lemma SelfEffect(st: State, p: nat, t: Task, c: nat)
    requires p in st.tasks && t.cpu == st.tasks[p].cpu && t.weight == st.tasks[p].weight &&
             t.status == st.tasks[p].status && t.ppid == st.tasks[p].ppid
    ensures var st' := SetTask(st, p, t);
            && SameSelves(st, st') && SameWaits(st, st') && SameParents(st, st') && SameWalk(st, st', c)
            && (t.preempt == st.tasks[p].preempt && t.vrun == st.tasks[p].vrun ==> SameHolds(st, st'))
  {
  }

  lemma GoToEffect(st: State, d: nat, phase: Phase, c: nat)
    ensures SameTasks(st, GoTo(st, d, phase)) && (d != c ==> SameWalk(st, GoTo(st, d, phase), c))
  {
  }

  lemma MovedEffect(st: State, l: ListId, i: nat, c: nat)
    requires Listed(st) && i < |ListOf(st, l)|
    ensures var p, st1 := ListOf(st, l)[i], Unlink(st, l, i);
            var st' := Inserted(st1, TaskOf(st1, p).cpu, p);
            SameTasks(st, st') && (l != WaitingOf(c) ==> SameWalk(st, st', c))
  {
    assert Holds(st, l);
    hide Listed, Inserted, Unlink, SameTasks, SameWalk;
    var p, st1 := ListOf(st, l)[i], Unlink(st, l, i);
    UnlinkEffect(st, l, i, c);
    assert p in st1.tasks.Keys;
    InsertedEffect(st1, TaskOf(st1, p).cpu, p, c);
    Chained(st, st1, Inserted(st1, TaskOf(st1, p).cpu, p), c);
  }

  /** At most p has begun to wait, with this status. */
  ghost predicate BeginsWait(st: State, st': State, p: nat, status: Status) {
    forall q :: q in st'.tasks && WaitLike(st'.tasks[q].status) ==>
      q in st.tasks && (st.tasks[q].status == st'.tasks[q].status || (q == p && st'.tasks[q].status == status))
  }

  lemma BlocksEffect(st: State, d: nat, status: Status, c: nat)
    requires Current(st, d) in st.tasks
    ensures SameSelves(st, Blocks(st, d, status)) && (d != c ==> SameWalk(st, Blocks(st, d, status), c))
    ensures SameHolds(st, Blocks(st, d, status)) && SameParents(st, Blocks(st, d, status))
    ensures BeginsWait(st, Blocks(st, d, status), Current(st, d), status)
  {
  }

  lemma SwitchOutCases(st: State, d: nat)
    ensures var (p, st1, st') := (Current(st, d), GoTo(st, d, Check(0)), SwitchedOut(st, d));
            || st' == st1 || st' == GoTo(st, d, Dying(TaskOf(st, p).ppid))
            || st' == Inserted(st1, d, p) || st' == Append(st1, p, WaitingOf(d))
  {
    hide Inserted, Append, GoTo;
  }

  lemma SwitchOutEffect(st: State, d: nat, c: nat)
    requires Inv(st) && Enabled(st, SwitchOut(d))
    ensures SameTasks(st, SwitchedOut(st, d)) && (d != c ==> SameWalk(st, SwitchedOut(st, d), c))
  {
    var p, st1 := Current(st, d), GoTo(st, d, Check(0));
    CurrentExists(st, d);
    SwitchOutCases(st, d);
    hide Inv, Enabled, SwitchedOut, Inserted, SameTasks, SameWalk, Append, GoTo;
    GoToEffect(st, d, Dying(TaskOf(st, p).ppid), c);
    GoToEffect(st, d, Check(0), c);
    InsertedEffect(st1, d, p, c);
    AppendEffect(st1, p, WaitingOf(d), c);
    Chained(st, st1, Inserted(st1, d, p), c);
    Chained(st, st1, Append(st1, p, WaitingOf(d)), c);
  }

  lemma CurrentExists(st: State, d: nat)
    requires Inv(st) && d in st.cpus && !st.cpus[d].phase.Check?
    ensures Current(st, d) in st.tasks && st.tasks[Current(st, d)].cpu == d && GoTo(st, d, Check(0)).tasks == st.tasks
  {
    assert CpuOk(st, d);
  }

  lemma InformEffect(st: State, d: nat, c: nat)
    requires Inv(st) && Enabled(st, Inform(d))
    ensures var st' := Informed(st, d, st.cpus[d].phase.q); SameTasks(st, st') && (d != c ==> SameWalk(st, st', c))
  {
    CurrentExists(st, d);
    hide Inv, SameTasks, SameWalk, Append, GoTo;
    var p, q, st1 := Current(st, d), st.cpus[d].phase.q, GoTo(st, d, Check(0));
    GoToEffect(st, d, Check(0), c);
    AppendEffect(st1, p, ExitedOf(q), c);
    Chained(st, st1, Append(st1, p, ExitedOf(q)), c);
  }

  lemma BlockedIsNoWait(st: State, d: nat, status: Status)
    requires Current(st, d) in st.tasks && !WaitLike(status)
    ensures SameWaits(st, Blocks(st, d, status))
  {
  }

  lemma SemaWaitEffect(st: State, d: nat, s: nat, c: nat)
    requires Enabled(st, SemaWait(d, s))
    ensures var st' := Apply(st, SemaWait(d, s)); SameTasks(st, st') && (d != c ==> SameWalk(st, st', c))
  {
    var p := Current(st, d);
    var st1 := Append(st, p, SemaOf(d, s));
    assert Current(st1, d) in st1.tasks;
    hide Append, Blocks, SameSelves, SameWaits, SameHolds, SameParents, SameWalk;
    AppendEffect(st, p, SemaOf(d, s), c);
    BlocksEffect(st1, d, Blocked, c);
    BlockedIsNoWait(st1, d, Blocked);
    Chained(st, st1, Blocks(st1, d, Blocked), c);
  }

  lemma AdoptEffect(st: State, d: nat, c: nat)
    requires Inv(st) && Enabled(st, Adopt(d))
    ensures var st' := Apply(st, Adopt(d));
            SameSelves(st, st') && SameWaits(st, st') && SameHolds(st, st') && SameWalk(st, st', c)
  {
    AdoptedIs(st, d);
    hide Inv, Adopted;
  }

  lemma ReapEffect(st: State, d: nat, c: nat)
    requires Inv(st) && Enabled(st, Reap(d))
    ensures SameTasks(st, Apply(st, Reap(d))) && SameWalk(st, Apply(st, Reap(d)), c)
  {
    var l := ExitedOf(Current(st, d));
    assert Holds(st, l);
    hide Inv, Unlink;
    UnlinkEffect(st, l, 0, c);
  }

  lemma CheckNextEffect(st: State, d: nat, ipc: bool, c: nat)
    requires Inv(st) && Enabled(st, CheckNext(d, ipc))
    ensures SameTasks(st, CheckedNext(st, d, ipc)) && (d != c ==> SameWalk(st, CheckedNext(st, d, ipc), c))
  {
    var k := st.cpus[d].phase.kept;
    hide Inserted, Unlink, GoTo, Stays, SameTasks, SameWalk, Listed;
    GoToEffect(st, d, Check(k + 1), c);
    MovedEffect(st, WaitingOf(d), k, c);
    hide Inv;
  }

  lemma IdleExists(st: State, d: nat)
    requires Inv(st) && d in st.cpus
    ensures st.cpus[d].idle in st.tasks && st.tasks[st.cpus[d].idle].cpu == d
  {
    assert CpuOk(st, d);
  }

  lemma WithWorkEffect(st: State, d: nat, c: nat)
    requires Inv(st) && d in st.cpus
    ensures SameTasks(st, WithWork(st, d)) && SameWalk(st, WithWork(st, d), c)
  {
    IdleExists(st, d);
    hide Inv, Inserted;
    InsertedEffect(st, d, st.cpus[d].idle, c);
  }

  lemma PickNextEffect(st: State, d: nat, c: nat)
    requires Inv(st) && Enabled(st, PickNext(d))
    ensures SameTasks(st, Picked(st, d)) && (d != c ==> SameWalk(st, Picked(st, d), c))
  {
    hide Inv, WithWork, Switched, SameTasks, SameWalk;
    var st1 := WithWork(st, d);
    WithWorkEffect(st, d, c);
    WithWorkKeeps(st, d);
    SwitchedEffect(st1, d, c);
    Chained(st, st1, Switched(st1, d), c);
  }

  lemma SwitchedEffect(st: State, d: nat, c: nat)
    requires Inv(st) && Walking(st, d) && ListOf(st, ReadyOf(d)) != []
    ensures SameTasks(st, Switched(st, d)) && (d != c ==> SameWalk(st, Switched(st, d), c))
  {
    SwitchedIs(st, d);
    assert Holds(st, ReadyOf(d));
    assert TaskOk(st, ListOf(st, ReadyOf(d))[0]);
    hide Inv, Switched, Wrap;
  }

  /** A task that a step brings in. */
  predicate Newcomer(step: Step, p: nat) {
    (step.Spawn? && p == step.p) || (step.StartCpu? && (p == step.main || p == step.idle))
  }

  /** The tasks that were there keep their CPU and weight; a newcomer has those it is created with. */
  ghost predicate KeepsSelves(st: State, st': State, step: Step) {
    forall p :: p in st'.tasks ==>
      if Newcomer(step, p) then
        && p !in st.tasks && st'.tasks[p].cpu == step.c
        && st'.tasks[p].weight == if step.StartCpu? && p == step.idle then step.wIdle else step.w
      else p in st.tasks && st'.tasks[p].cpu == st.tasks[p].cpu && st'.tasks[p].weight == st.tasks[p].weight
  }

  /** Only a CPU's own step changes the preempt count or the clock, of the task that it runs, to the value it brings. */
  ghost predicate KeepsHolds(st: State, st': State, step: Step) {
    forall p :: p in st.tasks && p in st'.tasks ==>
      && st'.tasks[p].preempt == (if step.Preempt? && p == Current(st, step.c) then step.n else st.tasks[p].preempt)
      && st'.tasks[p].vrun == if step.Tick? && p == Current(st, step.c) then step.v else st.tasks[p].vrun
  }

  /** A new task is a child of the task that ran; an old one keeps its parent, unless children are given away. */
  ghost predicate KeepsParents(st: State, st': State, step: Step) {
    forall p :: p in st'.tasks ==>
      if Newcomer(step, p) then
        st'.tasks[p].ppid
        == if step.Spawn? then Current(st, step.c) else if p == step.idle then step.main else step.parent
      else p in st.tasks && (step.Adopt? || st'.tasks[p].ppid == st.tasks[p].ppid)
  }

  /** Who waits after the step waited before, in the same way, unless the step is the one by which it blocks. */
  ghost predicate KeepsWaits(st: State, st': State, step: Step) {
    if step.Block? then BeginsWait(st, st', Current(st, step.c), step.status) else SameWaits(st, st')
  }

  lemma SpawnedEffect(st: State, d: nat, p: nat, ppid: nat, w: Word, c: nat)
    requires p !in st.tasks
    ensures var st' := Spawned(st, d, p, ppid, w);
            && st'.tasks.Keys == st.tasks.Keys + {p} && st'.tasks[p].cpu == d && st'.tasks[p].weight == w
            && st'.tasks[p].ppid == ppid
            && (forall q :: q in st.tasks ==>
                 st'.tasks[q].cpu == st.tasks[q].cpu && st'.tasks[q].weight == st.tasks[q].weight)
            && SameHolds(st, st') && SameParents(st, st') && SameWaits(st, st') && SameWalk(st, st', c)
  {
    var t := Task(Ready, d, ppid, 0, 0, w, false, false, Nowhere);
    InsertedEffect(SetTask(st, p, t), d, p, c);
    hide Inserted;
  }

  lemma StartCpuEffect(st: State, step: Step, c: nat)
    requires step.StartCpu? && Enabled(st, step)
    ensures KeepsSelves(st, Apply(st, step), step) && SameWaits(st, Apply(st, step))
    ensures KeepsHolds(st, Apply(st, step), step) && KeepsParents(st, Apply(st, step), step)
    ensures step.c != c ==> SameWalk(st, Apply(st, step), c)
  {
    hide Spawned;
    var st1 := SetTask(st, step.main, Task(Running, step.c, step.parent, 0, 0, step.w, true, false, Nowhere));
    var st2 := SetCpu(st1, step.c, Cpu(0, 0, step.main, step.idle, step.main, Run));
    SpawnedEffect(st2, step.c, step.idle, step.main, step.wIdle, c);
  }

  /** Every step. */
  lemma StepEffect(st: State, step: Step, c: nat)
    requires Inv(st) && Enabled(st, step)
    ensures KeepsSelves(st, Apply(st, step), step) && KeepsWaits(st, Apply(st, step), step)
    ensures KeepsHolds(st, Apply(st, step), step) && KeepsParents(st, Apply(st, step), step)
    ensures step.c != c ==> SameWalk(st, Apply(st, step), c)
  {
    hide Inv, SameWaits, SameWalk, KeepsSelves, KeepsHolds, KeepsParents, BeginsWait;
    match step
    case StartCpu(_, _, _, _, _, _) => StartCpuEffect(st, step, c);
    case Spawn(d, p, w) => SpawnEffect(st, d, p, w, c);
    case _ =>
      QuietEffect(st, step, c);
      SelvesKept(st, Apply(st, step), step);
  }

  lemma SelvesKept(st: State, st': State, step: Step)
    requires SameSelves(st, st') && !step.StartCpu? && !step.Spawn? && (step.Adopt? || SameParents(st, st'))
    ensures KeepsSelves(st, st', step) && KeepsParents(st, st', step)
  {
  }

  lemma HoldsKept(st: State, st': State, step: Step)
    requires SameHolds(st, st') && !step.Preempt? && !step.Tick?
    ensures KeepsHolds(st, st', step)
  {
  }

  lemma CountEffect(st: State, step: Step)
    requires Enabled(st, step) && (step.Preempt? || step.Tick?)
    ensures KeepsHolds(st, Apply(st, step), step)
  {
  }

  lemma SpawnEffect(st: State, d: nat, p: nat, w: Word, c: nat)
    requires Enabled(st, Spawn(d, p, w))
    ensures var step := Spawn(d, p, w);
            var st' := Apply(st, step);
            && KeepsSelves(st, st', step) && KeepsHolds(st, st', step) && KeepsParents(st, st', step)
            && SameWaits(st, st') && SameWalk(st, st', c)
  {
    SpawnedEffect(st, d, p, Current(st, d), w, c);
    hide Spawned;
  }

  lemma QuietEffect(st: State, step: Step, c: nat)
    requires Inv(st) && Enabled(st, step) && !step.StartCpu? && !step.Spawn?
    ensures SameSelves(st, Apply(st, step)) && KeepsWaits(st, Apply(st, step), step)
    ensures KeepsHolds(st, Apply(st, step), step) && (step.Adopt? || SameParents(st, Apply(st, step)))
    ensures step.c != c ==> SameWalk(st, Apply(st, step), c)
  {
    hide Inv, SameSelves, SameWaits, SameWalk, SameHolds, SameParents, KeepsHolds, BeginsWait;
    if !step.Preempt? && !step.Tick? && SameHolds(st, Apply(st, step)) {
      HoldsKept(st, Apply(st, step), step);
    }
    hide GoTo, Blocks, Append, Woken, Adopted, Reaped, SwitchedOut, Informed, CheckedNext, Picked;
    match step
    case Tick(d, v) =>
      SelfEffect(st, Current(st, d), TaskOf(st, Current(st, d)).(vrun := v), c);
      CountEffect(st, step);
    case Preempt(d, n) =>
      SelfEffect(st, Current(st, d), TaskOf(st, Current(st, d)).(preempt := n), c);
      CountEffect(st, step);
    case Yield(d) => GoToEffect(st, d, Out, c);
    case Block(d, status) => BlocksEffect(st, d, status, c);
    case Rest(d) =>
      BlocksEffect(st, d, Blocked, c);
      BlockedIsNoWait(st, d, Blocked);
    case SemaWait(d, s) => SemaWaitEffect(st, d, s, c);
    case SemaWake(d, s) => WokenEffect(st, SemaOf(d, s), c);
    case Adopt(d) => AdoptEffect(st, d, c);
    case Die(d) =>
      BlocksEffect(st, d, Died, c);
      BlockedIsNoWait(st, d, Died);
    case Reap(d) => ReapEffect(st, d, c);
    case SwitchOut(d) => SwitchOutEffect(st, d, c);
    case Inform(d) => InformEffect(st, d, c);
    case CheckNext(d, ipc) => CheckNextEffect(st, d, ipc, c);
    case PickNext(d) => PickNextEffect(st, d, c);
  }

  lemma WokenEffect(st: State, l: ListId, c: nat)
    requires Inv(st) && !l.WaitingOf?
    ensures SameTasks(st, Woken(st, l)) && SameWalk(st, Woken(st, l), c)
  {
    hide Inserted, Unlink, SameTasks, SameWalk, Listed;
    if ListOf(st, l) != [] {
      MovedEffect(st, l, 0, c);
    } else {
      NoEffect(st, c);
    }
    hide Inv;
  }
}
