/**
 What task_ipc_check answers while others interfere. A check that lets a task go does so for a reason, and one that
 begins when there is a reason lets the task go, whatever happens in between.
 */
module IpcChecks {
  import opened Ipc
  import opened IpcRefinement

  /** There is a reason to let the task go: a receiver has what it waits for, or a sender has been acknowledged. */
  predicate Ready(t: Task) {
    (t.phase.RecvWait? && CanReceive(t, t.phase.src)) || (t.phase.SendWait? && t.stage == Acked)
  }

  predicate ReadyIn(m: State, p: int) {
    p in m.tasks && Ready(m.tasks[p])
  }

  /** The check of p is under way, or has passed, and can only pass. */
  predicate Sure(m: State, p: int) {
    ReadyIn(m, p) && var t := m.tasks[p]; t.check != NoCheck && (t.check == ReadQueue ==> t.senders != [])
  }

  /** The check of p has come to its end. */
  predicate Ended(m: State, p: int) {
    p in m.tasks && (m.tasks[p].check == NoCheck || m.tasks[p].check == Passed)
  }

  predicate LetsGo(m: State, p: int) {
    p in m.tasks && m.tasks[p].check == Passed
  }

  lemma LetsGoIsReady(m: State, p: int)
    requires Inv(m) && LetsGo(m, p)
    ensures ReadyIn(m, p)
  {
    Known(m.tasks, p);
  }

  lemma StartIsSure(m: State, p: int)
    requires Inv(m) && ReadyIn(m, p) && Enabled(m, StartCheck(p))
    ensures Sure(Apply(m, StartCheck(p)), p)
  {
    Known(m.tasks, p);
    hide SenderOk, QueueOk;
  }

  /** A read of the check itself. */
  lemma ReadKeepsSure(m: State, p: int)
    requires Inv(m) && Sure(m, p) && Enabled(m, ContinueCheck(p))
    ensures Sure(Apply(m, ContinueCheck(p)), p)
  {
    Known(m.tasks, p);
    hide QueueOk;
  }

  /** What others can do to a task that waits: they add senders, take messages of its own, report interrupts. */
  ghost predicate Endures(t: Task, u: Task) {
    && u.phase == t.phase && u.check == t.check
    && (t.hasIntr ==> u.hasIntr) && (forall s :: s in t.senders ==> s in u.senders)
    && (t.stage == Acked ==> u.stage == Acked)
  }

  lemma EndureKeepsSure(m: State, m': State, p: int)
    requires Sure(m, p) && p in m'.tasks && Endures(m.tasks[p], m'.tasks[p])
    ensures Sure(m', p)
  {
    var t, u := m.tasks[p], m'.tasks[p];
    if t.senders != [] {
      var s := t.senders[0];
      assert s in t.senders && s in u.senders;
    }
  }

  /** The steps of p itself that are possible while its check is under way or has passed. */
  lemma OwnSteps(m: State, step: Step)
    requires Inv(m) && Sure(m, step.p) && Enabled(m, step) && !step.Unblock?
    ensures step.ContinueCheck? || step.Interrupt?
  {
    Known(m.tasks, step.p);
    hide SenderOk, QueueOk;
  }

  lemma InterruptEndures(m: State, p: int)
    requires p in m.tasks
    ensures p in DoInterrupt(m, p).tasks && Endures(m.tasks[p], DoInterrupt(m, p).tasks[p])
  {
  }

  /** The steps that write another task's record. */
  predicate WritesTwo(step: Step) {
    step.Enqueue? || step.Dequeue? || step.CopyOut? || step.Unlink? || step.Acknowledge?
  }

  lemma OneWriter(m: State, step: Step, p: int)
    requires p in m.tasks && Enabled(m, step) && step.p != p && !WritesTwo(step)
    ensures p in Apply(m, step).tasks && Apply(m, step).tasks[p] == m.tasks[p]
  {
    hide Checked, Quiet;
  }

  lemma DequeueEndures(m: State, q: int, p: int)
    requires Inv(m) && p in m.tasks && Enabled(m, Dequeue(q)) && q != p
    ensures p in DoDequeue(m, q).tasks && Endures(m.tasks[p], DoDequeue(m, q).tasks[p])
  {
    DequeueResult(m, q);
    hide Inv, Without, DoDequeue;
  }

  lemma CopyOutEndures(m: State, q: int, p: int)
    requires Inv(m) && p in m.tasks && Enabled(m, CopyOut(q)) && q != p
    ensures p in DoCopyOut(m, q).tasks && Endures(m.tasks[p], DoCopyOut(m, q).tasks[p])
  {
    Known(m.tasks, q);
    hide Inv, SenderOk, QueueOk;
  }

  lemma TwoWriters(m: State, step: Step, p: int)
    requires Inv(m) && p in m.tasks && Enabled(m, step) && step.p != p && WritesTwo(step)
    ensures p in Apply(m, step).tasks && Endures(m.tasks[p], Apply(m, step).tasks[p])
  {
    hide Inv;
    if step.Dequeue? {
      DequeueEndures(m, step.p, p);
    } else if step.CopyOut? {
      CopyOutEndures(m, step.p, p);
    }
  }

  /** Steps of other tasks. */
  lemma OthersEndure(m: State, step: Step, p: int)
    requires Inv(m) && p in m.tasks && Enabled(m, step) && step.p != p
    ensures p in Apply(m, step).tasks && Endures(m.tasks[p], Apply(m, step).tasks[p])
  {
    hide Inv, Enabled, Apply;
    if WritesTwo(step) {
      TwoWriters(m, step, p);
    } else {
      OneWriter(m, step, p);
    }
  }

  /** Nothing but the wake-up itself ends it. */
  lemma StepKeepsSure(m: State, step: Step, p: int)
    requires Inv(m) && Sure(m, p) && Enabled(m, step) && step != Unblock(p)
    ensures Sure(Apply(m, step), p)
  {
    hide Inv, Sure, Enabled, Endures;
    IsThere(m, p);
    if step.p != p {
      OthersEndure(m, step, p);
      EndureKeepsSure(m, Apply(m, step), p);
    } else {
      OwnSteps(m, step);
      if step.ContinueCheck? {
        ReadKeepsSure(m, p);
      } else {
        InterruptEndures(m, p);
        EndureKeepsSure(m, Apply(m, step), p);
      }
    }
  }

  lemma IsThere(m: State, p: int)
    requires Sure(m, p)
    ensures p in m.tasks
  {
  }

  // ---------------------------------------------------------------- runs

  /** The reads that are still to come at most. */
  function Rank(c: Check): nat {
    match c
    case ReadIntr => 5
    case ReadQueue => 4
    case ReadSource => 3
    case FindSource => 2
    case ClearFlag => 1
    case ReadSendFlag => 1
    case _ => 0
  }

  function ReadsOf(steps: seq<Step>, p: int): nat {
    if steps == [] then 0
    else ReadsOf(steps[..|steps| - 1], p) + if steps[|steps| - 1] == ContinueCheck(p) then 1 else 0
  }

  lemma ReadLowersRank(m: State, p: int)
    requires Inv(m) && Sure(m, p) && Enabled(m, ContinueCheck(p))
    ensures p in Apply(m, ContinueCheck(p)).tasks
    ensures Rank(Apply(m, ContinueCheck(p)).tasks[p].check) < Rank(m.tasks[p].check)
  {
    Known(m.tasks, p);
    hide QueueOk;
  }

  lemma OthersKeepRank(m: State, step: Step, p: int)
    requires Inv(m) && Sure(m, p) && Enabled(m, step) && step != Unblock(p) && step != ContinueCheck(p)
    ensures p in Apply(m, step).tasks && Apply(m, step).tasks[p].check == m.tasks[p].check
  {
    hide Inv, Sure, Enabled, Apply, Rank;
    IsThere(m, p);
    if step.p != p {
      OthersEndure(m, step, p);
    } else {
      OwnSteps(m, step);
      InterruptIs(m, p);
      InterruptEndures(m, p);
    }
  }

  lemma InterruptIs(m: State, p: int)
    ensures Enabled(m, Interrupt(p)) && Apply(m, Interrupt(p)) == DoInterrupt(m, p)
  {
  }

  lemma ExecLast(steps: seq<Step>, step: Step)
    requires Exec(steps + [step]).Reached?
    ensures Exec(steps).Reached? && Enabled(Exec(steps).st, step) &&
            Exec(steps + [step]).st == Apply(Exec(steps).st, step)
  {
    hide Enabled, Apply;
    assert (steps + [step])[..|steps|] == steps;
  }

  /**
   No wake-up is missed, in any interleaving: a check that begins when the task has a reason to go on keeps it, and
   until the wake-up it is under way or has passed; after at most five reads it has passed.
   */
  lemma {:induction false} NoWakeUpMissed(before: seq<Step>, after: seq<Step>, p: int)
    requires Exec(before + [StartCheck(p)] + after).Reached? && Unblock(p) !in after
    requires Exec(before).Reached? ==> ReadyIn(Exec(before).st, p)
    ensures var m := Exec(before + [StartCheck(p)] + after).st;
            && Sure(m, p) && p in m.tasks && ReadsOf(after, p) + Rank(m.tasks[p].check) <= 5
            && (m.tasks[p].check == Passed <==> Rank(m.tasks[p].check) == 0)
    decreases |after|
  {
    var begun := before + [StartCheck(p)];
    RunsRefineMailbox(begun + after);
    hide Inv, Enabled, Apply, Exec, Ready, CanReceive;
    if after == [] {
      assert begun + after == begun;
      ExecLast(before, StartCheck(p));
      RunsRefineMailbox(before);
      StartIsSure(Exec(before).st, p);
    } else {
      var rest, last := after[..|after| - 1], after[|after| - 1];
      assert begun + after == (begun + rest) + [last];
      ExecLast(begun + rest, last);
      NoWakeUpMissed(before, rest, p);
      RunsRefineMailbox(begun + rest);
      var m := Exec(begun + rest).st;
      StepKeepsSure(m, last, p);
      if last == ContinueCheck(p) {
        ReadLowersRank(m, p);
      } else {
        OthersKeepRank(m, last, p);
      }
    }
  }
}
