/** The queues of semaphores over runs of all CPUs: tasks leave a queue in the order in which they joined it. */
module SchedulerQueues {
  import opened Scheduler
  import opened SchedulerSteps
  import opened SchedulerLists
  import opened SchedulerInvariant
  import opened SchedulerSafety
  import opened SchedulerExit
  import opened SchedulerRuns
  import SchedulerWalk
  import Words

  lemma InsertedLists(st: State, d: nat, p: nat, l: ListId)
    requires l != ReadyOf(d)
    ensures ListOf(Inserted(st, d, p), l) == ListOf(st, l)
  {
    hide InsertPos, Before, Words.Wrap;
  }

  lemma MovedLists(st: State, l: ListId, i: nat, l': ListId)
    requires i < |ListOf(st, l)| && !l'.ReadyOf?
    ensures var p, st1 := ListOf(st, l)[i], Unlink(st, l, i);
            var st' := Inserted(st1, TaskOf(st1, p).cpu, p);
            ListOf(st', l') == if l' == l then ListOf(st, l)[..i] + ListOf(st, l)[i + 1..] else ListOf(st, l')
  {
    hide Inserted;
    var p, st1 := ListOf(st, l)[i], Unlink(st, l, i);
    InsertedLists(st1, TaskOf(st1, p).cpu, p, l');
  }

  lemma PickedLists(st: State, d: nat, l: ListId)
    requires d in st.cpus && !l.ReadyOf?
    ensures ListOf(Picked(st, d), l) == ListOf(st, l)
  {
    var idle := CpuOf(st, d).idle;
    InsertedLists(st, TaskOf(st, idle).cpu, idle, l);
    var st1 := WithWork(st, d);
    hide Inserted, Switched, Taken;
    if ListOf(st1, ReadyOf(d)) != [] && d in st1.cpus {
      SwitchedIs(st1, d);
    }
  }

  predicate Queues(step: Step, c: nat, s: nat) {
    step == SemaWait(c, s) || step == SemaWake(c, s)
  }

  lemma SwitchOutLists(st: State, d: nat, l: ListId)
    requires l.SemaOf?
    ensures ListOf(SwitchedOut(st, d), l) == ListOf(st, l)
  {
    var p, st1 := Current(st, d), GoTo(st, d, Check(0));
    InsertedLists(st1, d, p, l);
    hide Inserted;
  }

  lemma CheckLists(st: State, d: nat, ipc: bool, l: ListId)
    requires Enabled(st, CheckNext(d, ipc)) && l.SemaOf?
    ensures ListOf(CheckedNext(st, d, ipc), l) == ListOf(st, l)
  {
    MovedLists(st, WaitingOf(d), st.cpus[d].phase.kept, l);
    hide Inserted, Unlink, Stays;
  }

  /** Every step but those of this semaphore leaves its queue alone. */
  lemma QueueKept(st: State, step: Step, c: nat, s: nat)
    requires Inv(st) && Enabled(st, step) && !Queues(step, c, s)
    ensures ListOf(Apply(st, step), SemaOf(c, s)) == ListOf(st, SemaOf(c, s))
  {
    var l := SemaOf(c, s);
    match step
    case Spawn(d, p, w) =>
      InsertedLists(SetTask(st, p, Task(Ready, d, Current(st, d), 0, 0, w, false, false, Nowhere)), d, p, l);
      hide Inv, Inserted;
    case StartCpu(d, main, idle, parent, w, wIdle) =>
      var st1 := SetTask(st, main, Task(Running, d, parent, 0, 0, w, true, false, Nowhere));
      var st2 := SetCpu(st1, d, Cpu(0, 0, main, idle, main, Run));
      InsertedLists(SetTask(st2, idle, Task(Ready, d, main, 0, 0, wIdle, false, false, Nowhere)), d, idle, l);
      hide Inv, Inserted;
    case SemaWake(d, t) =>
      if ListOf(st, SemaOf(d, t)) != [] {
        MovedLists(st, SemaOf(d, t), 0, l);
      }
      hide Inv, Inserted, Unlink;
    case Adopt(d) =>
      AdoptedIs(st, d);
      hide Inv, Adopted;
    case SwitchOut(d) =>
      SwitchOutLists(st, d, l);
      hide Inv, SwitchedOut;
    case CheckNext(d, ipc) =>
      CheckLists(st, d, ipc, l);
      hide Inv, CheckedNext;
    case PickNext(d) =>
      PickedLists(st, d, l);
      hide Inv, Picked;
    case _ => hide Inv;
  }

  // ---------------------------------------------------------------- first come, first woken

  /** The tasks that join the queue in a run from st, in order. */
  function Joined(st: State, steps: seq<Step>, c: nat, s: nat): seq<nat>
    decreases |steps|
  {
    if steps == [] then []
    else if !Enabled(st, steps[0]) then Joined(st, steps[1..], c, s)
    else
      (if steps[0] == SemaWait(c, s) then [Current(st, c)] else []) + Joined(Apply(st, steps[0]), steps[1..], c, s)
  }

  /** How often somebody is woken. */
  function Wakes(st: State, steps: seq<Step>, c: nat, s: nat): nat
    decreases |steps|
  {
    if steps == [] then 0
    else if !Enabled(st, steps[0]) then Wakes(st, steps[1..], c, s)
    else
      (if steps[0] == SemaWake(c, s) && ListOf(st, SemaOf(c, s)) != [] then 1 else 0)
      + Wakes(Apply(st, steps[0]), steps[1..], c, s)
  }

  lemma WaitJoins(st: State, c: nat, s: nat)
    requires Enabled(st, SemaWait(c, s))
    ensures ListOf(Apply(st, SemaWait(c, s)), SemaOf(c, s)) == ListOf(st, SemaOf(c, s)) + [Current(st, c)]
  {
    var q := ListOf(st, SemaOf(c, s));
    assert q[|q|..] == [] && q[..|q|] == q;
  }

  /** sema_up takes the first waiter, if there is one, and makes it ready. */
  lemma WakeTakesFirst(st: State, c: nat, s: nat)
    requires Inv(st) && Enabled(st, SemaWake(c, s)) && ListOf(st, SemaOf(c, s)) != []
    ensures var q, st' := ListOf(st, SemaOf(c, s)), Apply(st, SemaWake(c, s));
            && ListOf(st', SemaOf(c, s)) == q[1..]
            && TaskOf(st', q[0]).status == Ready && q[0] in ListOf(st', ReadyOf(TaskOf(st', q[0]).cpu))
  {
    var l := SemaOf(c, s);
    var p := ListOf(st, l)[0];
    MovedLists(st, l, 0, l);
    assert Holds(st, l) && Holds(st, ReadyOf(TaskOf(st, p).cpu));
    var st1 := Unlink(st, l, 0);
    assert ListOf(st, l)[..0] + ListOf(st, l)[1..] == ListOf(st, l)[1..];
    SchedulerWalk.InsertedHolds(st1, TaskOf(st1, p).cpu, p);
    InsertedCpu(st1, TaskOf(st1, p).cpu, p);
    hide Inv, Inserted;
  }

  lemma InsertedCpu(st: State, d: nat, p: nat)
    ensures TaskOf(Inserted(st, d, p), p).cpu == TaskOf(st, p).cpu
  {
    hide InsertPos, Before, Words.Wrap;
  }

  /** One step, and the tasks still to come. */
  lemma QueueStep(st: State, step: Step, c: nat, s: nat)
    requires Inv(st) && Enabled(st, step)
    ensures var q, q' := ListOf(st, SemaOf(c, s)), ListOf(Apply(st, step), SemaOf(c, s));
            if step == SemaWait(c, s) then q' == q + [Current(st, c)]
            else if step == SemaWake(c, s) && q != [] then q' == q[1..]
            else q' == q
  {
    if step == SemaWait(c, s) {
      WaitJoins(st, c, s);
    } else if step == SemaWake(c, s) {
      if ListOf(st, SemaOf(c, s)) != [] {
        WakeTakesFirst(st, c, s);
      }
    } else {
      QueueKept(st, step, c, s);
    }
    hide Inv, Link, Inserted, Unlink;
  }

  lemma {:induction false} QueueFrom(st: State, steps: seq<Step>, c: nat, s: nat)
    requires Inv(st)
    ensures var all := ListOf(st, SemaOf(c, s)) + Joined(st, steps, c, s);
            && Wakes(st, steps, c, s) <= |all|
            && ListOf(After(st, steps), SemaOf(c, s)) == all[Wakes(st, steps, c, s)..]
    decreases |steps|
  {
    hide Inv, Enabled, Apply;
    if steps != [] {
      if Enabled(st, steps[0]) {
        var st' := Apply(st, steps[0]);
        StepKeeps(st, steps[0]);
        QueueStep(st, steps[0], c, s);
        QueueFrom(st', steps[1..], c, s);
        var q, rest := ListOf(st, SemaOf(c, s)), Joined(st', steps[1..], c, s);
        Regrouped(q, Current(st, c), rest, Wakes(st', steps[1..], c, s));
      } else {
        QueueFrom(st, steps[1..], c, s);
      }
    }
  }

  lemma Regrouped(q: seq<nat>, p: nat, rest: seq<nat>, n: nat)
    ensures (q + [p]) + rest == q + ([p] + rest) && q + ([] + rest) == q + rest
    ensures q != [] && n <= |q[1..] + rest| ==> (q + rest)[n + 1..] == (q[1..] + rest)[n..]
  {
  }

  /**
   Over every run of all CPUs: of the tasks that have joined a semaphore's queue, those woken are the first ones, and
   the others are in the queue, in the order in which they joined.
   */
  lemma WokenInOrder(steps: seq<Step>, c: nat, s: nat)
    ensures var joined, n := Joined(Boot, steps, c, s), Wakes(Boot, steps, c, s);
            n <= |joined| && ListOf(After(Boot, steps), SemaOf(c, s)) == joined[n..]
  {
    BootInv();
    hide Inv, After;
    QueueFrom(Boot, steps, c, s);
    assert [] + Joined(Boot, steps, c, s) == Joined(Boot, steps, c, s);
  }
}
