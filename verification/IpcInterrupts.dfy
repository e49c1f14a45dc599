/**
 What becomes of an interrupt that inform_intr reports: it is recorded until the task is told, and a task that waits for
 it, or for anybody, is told of it by the very call that it is in.
 */
module IpcInterrupts {
  import opened Mailbox
  import opened Ipc
  import opened IpcRefinement
  import opened IpcReceives
  import C = IpcChecks

  // ---------------------------------------------------------------- interrupts are recorded

  /** An interrupt was reported to p, which existed, and p has not been told and has not ended since. */
  function Reported(steps: seq<Step>, p: int): bool {
    if steps == [] then false
    else
      var before, step := steps[..|steps| - 1], steps[|steps| - 1];
      if step == Interrupt(p) then Exec(before).Reached? && p in Exec(before).st.tasks
      else step != ClearIntr(p) && step != Exit(p) && Reported(before, p)
  }

  predicate Flagged(m: State, p: int) {
    p in m.tasks && m.tasks[p].hasIntr
  }

  lemma PairFlags(m: State, step: Step, p: int)
    requires Inv(m) && Enabled(m, step) && TwoTasks(step)
    ensures Flagged(Apply(m, step), p) == Flagged(m, p)
  {
    if step.Dequeue? {
      DequeueResult(m, step.p);
      hide DoDequeue;
    } else if step.Enqueue? {
      SendStartKnown(m, step.p);
    } else {
      ReceiverKnown(m, step.p);
    }
    hide Inv, Without;
  }

  lemma StepFlags(m: State, step: Step, p: int)
    requires Inv(m) && Enabled(m, step)
    ensures Flagged(Apply(m, step), p) ==
            if step == Interrupt(p) then p in m.tasks
            else step != ClearIntr(p) && step != Exit(p) && Flagged(m, p)
  {
    hide Inv, Quiet;
    if TwoTasks(step) {
      PairFlags(m, step, p);
    }
    hide Without;
  }

  /** Over every run: has_intr_msg is set exactly when an interrupt has been reported since the task was told last. */
  lemma {:induction false} InterruptsRecorded(steps: seq<Step>, p: int)
    requires Exec(steps).Reached?
    ensures Flagged(Exec(steps).st, p) <==> Reported(steps, p)
  {
    if steps != [] {
      var before, step := steps[..|steps| - 1], steps[|steps| - 1];
      InterruptsRecorded(before, p);
      RunsRefineMailbox(before);
      hide Inv, Enabled, Apply, Flagged;
      StepFlags(Exec(before).st, step, p);
    }
  }

  /** The report is the i-th step. */
  predicate ReportedAt(steps: seq<Step>, p: int, i: nat) {
    && i < |steps| && steps[i] == Interrupt(p) && Exec(steps[..i]).Reached? && p in Exec(steps[..i]).st.tasks
    && forall j :: i < j < |steps| ==> steps[j] != ClearIntr(p) && steps[j] != Exit(p)
  }

  lemma {:induction false} ReportedIs(steps: seq<Step>, p: int)
    requires Exec(steps).Reached?
    ensures Reported(steps, p) <==> exists i: nat :: ReportedAt(steps, p, i)
  {
    if steps != [] {
      var last := |steps| - 1;
      var before := steps[..last];
      ReportedIs(before, p);
      InterruptsRecorded(before, p);
      hide Exec, Enabled, Apply;
      if Reported(steps, p) {
        if steps[last] == Interrupt(p) {
          assert ReportedAt(steps, p, last);
        } else {
          var i: nat :| ReportedAt(before, p, i);
          assert before[..i] == steps[..i];
          assert ReportedAt(steps, p, i);
        }
      }
      if i: nat :| ReportedAt(steps, p, i) {
        if i < last {
          assert before[..i] == steps[..i];
          assert ReportedAt(before, p, i);
        }
      }
    }
  }

  /** The tasks to which an interrupt was reported, in order, as far as they existed. */
  function Reports(steps: seq<Step>): seq<int> {
    if steps == [] then []
    else
      var before, step := steps[..|steps| - 1], steps[|steps| - 1];
      var known := Exec(before).Reached? && step.p in Exec(before).st.tasks;
      Reports(before) + if step.Interrupt? && known then [step.p] else []
  }

  function Raises(log: seq<Event>): seq<int> {
    if log == [] then []
    else
      var e := log[|log| - 1];
      Raises(log[..|log| - 1]) + if e.Raise? then [e.dst] else []
  }

  lemma RaisesAppend(log: seq<Event>, e: Event)
    ensures Raises(log + [e]) == Raises(log) + if e.Raise? then [e.dst] else []
  {
    assert (log + [e])[..|log|] == log;
  }

  lemma StepRaises(m: State, step: Step)
    requires Inv(m) && Enabled(m, step)
    ensures Raises(Apply(m, step).log)
         == Raises(m.log) + if step.Interrupt? && step.p in m.tasks then [step.p] else []
  {
    hide Inv, Raises, Quiet, Without, Checked;
    var log := Apply(m, step).log;
    if log != m.log {
      assert log == m.log + [log[|m.log|]];
      RaisesAppend(m.log, log[|m.log|]);
    }
  }

  /** The events of the log that report interrupts are exactly the calls of inform_intr for existing tasks. */
  lemma {:induction false} RaisesAreReports(steps: seq<Step>)
    requires Exec(steps).Reached?
    ensures Raises(Exec(steps).st.log) == Reports(steps)
  {
    if steps != [] {
      var before, step := steps[..|steps| - 1], steps[|steps| - 1];
      RaisesAreReports(before);
      RunsRefineMailbox(before);
      hide Inv, Enabled, Apply, Raises;
      StepRaises(Exec(before).st, step);
    }
  }

  // ---------------------------------------------------------------- the call under way returns the interrupt

  predicate Wanted(src: int) {
    src == RECV_FROM_ANY || src == RECV_FROM_INT
  }

  /** The task is in a call of msg_recv that takes interrupts, and has not looked for what to take yet. */
  predicate Awaits(t: Task) {
    (t.phase.RecvStart? || t.phase.RecvFlagged? || t.phase.RecvWait? || t.phase.RecvReady?) && Wanted(t.phase.src)
  }

  /** It is in that call still, with an interrupt to be told of. */
  predicate WillTell(m: State, p: int, src: int) {
    p in m.tasks && m.tasks[p].hasIntr && Wanted(src)
    && (m.tasks[p].phase == RecvIntr(src) || (Awaits(m.tasks[p]) && m.tasks[p].phase.src == src))
  }

  lemma OthersTell(m: State, step: Step, p: int, src: int)
    requires Inv(m) && Enabled(m, step) && WillTell(m, p, src) && step.p != p
    ensures WillTell(Apply(m, step), p, src)
  {
    hide Inv, Enabled, Apply;
    C.OthersEndure(m, step, p);
  }

  lemma OwnTells(m: State, step: Step, src: int)
    requires Inv(m) && Enabled(m, step) && WillTell(m, step.p, src) && !step.ClearIntr?
    ensures WillTell(Apply(m, step), step.p, src)
  {
    ReceiverKnown(m, step.p);
    CheckedIs(m.tasks[step.p]);
    CheckKeepsIntr(m.tasks[step.p]);
    hide Inv, Checked, Quiet;
  }

  lemma CheckKeepsIntr(t: Task)
    ensures Checked(t).hasIntr == t.hasIntr
  {
  }

  lemma ReturnsGrow(m: State, step: Step, p: int)
    requires Inv(m) && Enabled(m, step)
    ensures Returns(m.log, p) <= Returns(Apply(m, step).log, p)
  {
    EveryStepChanges(m, step, p);
    hide Inv, Enabled, Apply, Changes, Returns;
    var m' := Apply(m, step);
    var added: seq<Event> :| |added| <= 1 && m'.log == m.log + added;
    AddedReturns(m.log, added, p);
  }

  lemma SameReturns(m: State, step: Step, p: int, src: int)
    requires Inv(m) && Enabled(m, step) && WillTell(m, p, src)
    ensures Returns(Apply(m, step).log, p) == Returns(m.log, p) + if step == ClearIntr(p) then [Interrupted] else []
  {
    hide Inv, Returns, Quiet, Without, Checked, LastWant;
    var log := Apply(m, step).log;
    if log != m.log {
      assert log == m.log + [log[|m.log|]];
      ReturnsAppend(m.log, log[|m.log|], p);
    }
  }

  ghost predicate ToldNext(before: State, m: State, p: int, src: int) {
    var was, rs := Returns(before.log, p), Returns(m.log, p);
    was <= rs && if rs == was then WillTell(m, p, src) else rs[|was|] == Interrupted
  }

  lemma StepToldNext(before: State, m: State, step: Step, p: int, src: int)
    requires Inv(m) && Enabled(m, step) && ToldNext(before, m, p, src)
    ensures ToldNext(before, Apply(m, step), p, src)
  {
    hide Inv, Enabled, Apply, Returns, WillTell;
    ReturnsGrow(m, step, p);
    if Returns(m.log, p) == Returns(before.log, p) {
      SameReturns(m, step, p, src);
      if step.p != p {
        OthersTell(m, step, p, src);
      } else if !step.ClearIntr? {
        OwnTells(m, step, src);
      }
    }
  }

  /**
   In every interleaving: an interrupt that is reported while p is in a call of msg_recv for interrupts or for anybody,
   and has not looked yet, is what this call returns. Until then p is in that call with the interrupt recorded, and
   while it waits there is a reason to let it go.
   */
  lemma {:induction false} NextIsInterrupt(before: seq<Step>, after: seq<Step>, p: int)
    requires Exec(before + [Interrupt(p)] + after).Reached?
    requires Exec(before).Reached? ==> p in Exec(before).st.tasks && Awaits(Exec(before).st.tasks[p])
    ensures Exec(before).Reached?
    ensures var m0, m := Exec(before).st, Exec(before + [Interrupt(p)] + after).st;
            && ToldNext(m0, m, p, m0.tasks[p].phase.src)
            && (Returns(m.log, p) == Returns(m0.log, p) && m.tasks[p].phase.RecvWait? ==> C.ReadyIn(m, p))
    decreases |after|
  {
    var begun := before + [Interrupt(p)];
    if after == [] {
      assert begun + after == begun;
      C.ExecLast(before, Interrupt(p));
      RunsRefineMailbox(before);
      FirstTold(Exec(before).st, p);
    } else {
      var rest, last := after[..|after| - 1], after[|after| - 1];
      assert begun + after == (begun + rest) + [last];
      C.ExecLast(begun + rest, last);
      hide Exec, Inv, Enabled, Apply, ToldNext, Awaits;
      NextIsInterrupt(before, rest, p);
      RunsRefineMailbox(begun + rest);
      StepToldNext(Exec(before).st, Exec(begun + rest).st, last, p, Exec(before).st.tasks[p].phase.src);
    }
    assert Exec(before).Reached?;
    WillTellIsReady(Exec(begun + after).st, p, Exec(before).st.tasks[p].phase.src);
  }

  lemma FirstTold(m: State, p: int)
    requires Inv(m) && p in m.tasks && Awaits(m.tasks[p])
    ensures ToldNext(m, Apply(m, Interrupt(p)), p, m.tasks[p].phase.src)
  {
    hide Inv, Returns;
    ReturnsAppend(m.log, Raise(p), p);
  }

  lemma WillTellIsReady(m: State, p: int, src: int)
    ensures WillTell(m, p, src) && m.tasks[p].phase.RecvWait? ==> C.ReadyIn(m, p)
  {
  }

  // ---------------------------------------------------------------- it gets through

  lemma {:induction false} ExecNext(steps: seq<Step>, s: Step)
    requires Exec(steps).Reached? && Enabled(Exec(steps).st, s)
    ensures Exec(steps + [s]) == Reached(Apply(Exec(steps).st, s))
  {
    hide Enabled, Apply;
    assert (steps + [s])[..|steps|] == steps;
  }

  /** An interrupt is reported, and p is checked. */
  function Polled(steps: seq<Step>, p: int): seq<Step> {
    steps + [Interrupt(p)] + [StartCheck(p)] + [ContinueCheck(p)] + [ContinueCheck(p)] + [ContinueCheck(p)]
  }

  /** p is woken, and msg_recv goes on. */
  function Woken(steps: seq<Step>, p: int): seq<Step> {
    steps + [Unblock(p)] + [Resume(p)] + [ClearIntr(p)]
  }

  lemma {:induction false} ReadOnce(steps: seq<Step>, p: int)
    requires Exec(steps).Reached? && p in Exec(steps).st.tasks
    requires Exec(steps).st.tasks[p].check in {ReadIntr, ReadSource, ClearFlag}
    ensures Exec(steps + [ContinueCheck(p)]) == Reached(Set(Exec(steps).st, p, Checked(Exec(steps).st.tasks[p])))
  {
    hide Exec, Checked;
    ExecNext(steps, ContinueCheck(p));
  }

  lemma ThreeReads(t: Task)
    requires t.hasIntr && Wanted(t.recvFrom) && t.check == ReadIntr
    ensures Checked(t) == t.(check := ReadSource)
    ensures Checked(t.(check := ReadSource)) == t.(check := ClearFlag)
    ensures Checked(t.(check := ClearFlag)) == t.(check := Passed, recvFlag := false)
  {
  }

  lemma {:induction false} Begins(steps: seq<Step>, p: int)
    requires Exec(steps).Reached? && p in Exec(steps).st.tasks
    requires var t := Exec(steps).st.tasks[p]; t.phase.RecvWait? && t.check == NoCheck && t.recvFlag
    ensures var m := Exec(steps).st;
            Exec(steps + [Interrupt(p)] + [StartCheck(p)]) ==
            Reached(Say(Set(m, p, m.tasks[p].(hasIntr := true, check := ReadIntr)), Raise(p)))
  {
    hide Exec, Quiet;
    ExecNext(steps, Interrupt(p));
    ExecNext(steps + [Interrupt(p)], StartCheck(p));
  }

  lemma {:induction false} CheckPasses(steps: seq<Step>, p: int)
    requires Exec(steps).Reached? && p in Exec(steps).st.tasks
    requires var t := Exec(steps).st.tasks[p];
             t.phase.RecvWait? && Wanted(t.phase.src) && t.check == NoCheck && t.recvFlag && t.recvFrom == t.phase.src
    ensures var m, m' := Exec(steps).st, Exec(Polled(steps, p));
            && m'.Reached? && m'.st.log == m.log + [Raise(p)] && p in m'.st.tasks
            && m'.st.tasks[p] == m.tasks[p].(hasIntr := true, check := Passed, recvFlag := false)
  {
    hide Exec, Checked;
    var s2 := steps + [Interrupt(p)] + [StartCheck(p)];
    Begins(steps, p);
    ThreeReads(Exec(s2).st.tasks[p]);
    ReadOnce(s2, p);
    ReadOnce(s2 + [ContinueCheck(p)], p);
    ReadOnce(s2 + [ContinueCheck(p)] + [ContinueCheck(p)], p);
  }

  lemma {:induction false} WakesUp(steps: seq<Step>, p: int)
    requires Exec(steps).Reached? && p in Exec(steps).st.tasks
    requires var t := Exec(steps).st.tasks[p];
             t.phase.RecvWait? && Wanted(t.phase.src) && t.check == Passed && t.hasIntr
    ensures var m' := Exec(Woken(steps, p)); m'.Reached? && m'.st.log == Exec(steps).st.log + [Notify(p)]
  {
    hide Exec, Quiet;
    ExecNext(steps, Unblock(p));
    ExecNext(steps + [Unblock(p)], Resume(p));
    ExecNext(steps + [Unblock(p)] + [Resume(p)], ClearIntr(p));
  }

  lemma WaitKnown(m: State, p: int)
    requires Inv(m) && p in m.tasks && m.tasks[p].phase.RecvWait? && m.tasks[p].check == NoCheck
    ensures m.tasks[p].recvFlag && m.tasks[p].recvFrom == m.tasks[p].phase.src
  {
    Known(m.tasks, p);
  }

  /** And it gets through: three reads, the wake-up, and msg_recv returns the interrupt. */
  lemma {:induction false} InterruptGetsThrough(steps: seq<Step>, p: int)
    requires Exec(steps).Reached? && p in Exec(steps).st.tasks
    requires var t := Exec(steps).st.tasks[p]; t.phase.RecvWait? && Wanted(t.phase.src) && t.check == NoCheck
    ensures var m, m' := Exec(steps).st, Exec(Woken(Polled(steps, p), p));
            m'.Reached? && Returns(m'.st.log, p) == Returns(m.log, p) + [Interrupted]
  {
    var m := Exec(steps).st;
    RunsRefineMailbox(steps);
    WaitKnown(m, p);
    hide Inv, Exec, Returns, LastWant, Polled, Woken, Judge, Refines;
    CheckPasses(steps, p);
    WakesUp(Polled(steps, p), p);
    ReturnsAppend(m.log, Raise(p), p);
    ReturnsAppend(m.log + [Raise(p)], Notify(p), p);
  }
}
