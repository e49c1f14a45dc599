/**
 What each call of msg_recv returns, and what becomes of each report of an interrupt. Both are read off the steps of a
 run and the events of its log, and not off the kernel's records.
 */
module IpcReceives {
  import opened Mailbox
  import opened Ipc
  import opened IpcRefinement

  // ---------------------------------------------------------------- calls and returns

  /** The sources that msg_recv was called with and accepted, in order. */
  function Asked(steps: seq<Step>, p: int): seq<int> {
    if steps == [] then []
    else Asked(steps[..|steps| - 1], p) + AskOf(Exec(steps[..|steps| - 1]), steps[|steps| - 1], p)
  }

  function AskOf(before: Outcome, step: Step, p: int): seq<int> {
    if before.Reached? && step.BeginRecv? && step.p == p
       && (step.src == RECV_FROM_ANY || step.src == RECV_FROM_INT || step.src in before.st.tasks)
    then [step.src] else []
  }

  /** What msg_recv returned: an interrupt, or a message, for which the sender `want` was asked. */
  datatype Return = Interrupted | Got(want: int, m: Message)

  /** The source for which p took a message last. */
  function LastWant(log: seq<Event>, p: int): int {
    if log == [] then RECV_FROM_INT
    else
      var e := log[|log| - 1];
      if e.Take? && e.dst == p then e.want else LastWant(log[..|log| - 1], p)
  }

  function Returns(log: seq<Event>, p: int): seq<Return> {
    if log == [] then []
    else
      var before, e := log[..|log| - 1], log[|log| - 1];
      Returns(before, p) + ReturnOf(e, p, LastWant(before, p))
  }

  function ReturnOf(e: Event, p: int, want: int): seq<Return> {
    if e.Deliver? && e.dst == p then [Got(want, e.m)] else if e == Notify(p) then [Interrupted] else []
  }

  /** A return that a call for src may make. */
  predicate Answers(src: int, r: Return) {
    if src == RECV_FROM_INT then r == Interrupted
    else if src == RECV_FROM_ANY then r.Got? ==> r.want == RECV_FROM_ANY
    else r.Got? && r.want == src && r.m.src == src
  }

  lemma ReturnsAppend(log: seq<Event>, e: Event, p: int)
    ensures Returns(log + [e], p) == Returns(log, p) + ReturnOf(e, p, LastWant(log, p))
    ensures LastWant(log + [e], p) == if e.Take? && e.dst == p then e.want else LastWant(log, p)
  {
    assert (log + [e])[..|log|] == log;
  }

  // ---------------------------------------------------------------- where a receiver stands

  datatype Standing =
    | Outside
    | Asking(src: int)              // has not decided what to take
    | Told(src: int)                // takes the interrupt
    | Taking(src: int, sender: int) // has taken the sender off the list
    | HasGot(m: Message)

  function StandingOf(ph: Phase): Standing {
    match ph
    case RecvStart(src) => Asking(src)
    case RecvFlagged(src) => Asking(src)
    case RecvWait(src) => Asking(src)
    case RecvReady(src) => Asking(src)
    case RecvDequeue(src) => Asking(src)
    case RecvIntr(src) => Told(src)
    case RecvCopy(src, s) => Taking(src, s)
    case RecvUnlink(_, m) => HasGot(m)
    case RecvAck(_, m) => HasGot(m)
    case RecvDone(m) => HasGot(m)
    case _ => Outside
  }

  function Stands(m: State, p: int): Standing {
    if p in m.tasks then StandingOf(m.tasks[p].phase) else Outside
  }

  /** What a step means for p's calls: what it asks, what is returned, for whom it took last, and where it stands. */
  ghost predicate Changes(x: Standing, want: int, ask: seq<int>, ret: seq<Return>, want': int, y: Standing) {
    || (ask == [] && ret == [] && want' == want && y == x)
    || (x == Outside && |ask| == 1 && ret == [] && want' == want && y == Asking(ask[0]))
    || (x.Asking? && (x.src == RECV_FROM_ANY || x.src == RECV_FROM_INT)
        && ask == [] && ret == [] && want' == want && y == Told(x.src))
    || (x.Told? && ask == [] && ret == [Interrupted] && want' == want && y == Outside)
    || (x.Asking? && x.src != RECV_FROM_INT && ask == [] && ret == [] && want' == x.src && y.Taking? && y.src == x.src)
    || (x.Taking? && ask == [] && ret == [] && want' == want
        && y.HasGot? && (x.src == RECV_FROM_ANY || y.m.src == x.src))
    || (x.HasGot? && ask == [] && ret == [Got(want, x.m)] && want' == want && y == Outside)
  }

  ghost predicate StepChanges(m: State, step: Step, m': State, p: int) {
    exists added: seq<Event> ::
      && |added| <= 1 && m'.log == m.log + added
      && Changes(Stands(m, p), LastWant(m.log, p), AskOf(Reached(m), step, p), ReturnsBy(added, p, LastWant(m.log, p)),
                 WantAfter(added, p, LastWant(m.log, p)), Stands(m', p))
  }

  function ReturnsBy(added: seq<Event>, p: int, want: int): seq<Return>
    requires |added| <= 1
  {
    if added == [] then [] else ReturnOf(added[0], p, want)
  }

  function WantAfter(added: seq<Event>, p: int, want: int): int
    requires |added| <= 1
  {
    if added != [] && added[0].Take? && added[0].dst == p then added[0].want else want
  }

  lemma ReceiverKnown(m: State, p: int)
    requires Inv(m) && p in m.tasks
    ensures var t := m.tasks[p];
            && (t.phase.RecvDequeue? ==> t.phase.src != RECV_FROM_INT)
            && (t.phase.RecvCopy? ==>
                  && t.phase.sender in m.tasks && t.phase.sender != p
                  && m.tasks[t.phase.sender].msg.src == t.phase.sender
                  && (t.phase.src == RECV_FROM_ANY || t.phase.src == t.phase.sender))
            && (t.phase.RecvUnlink? || t.phase.RecvAck? ==> t.phase.sender != p)
            && (t.check == Passed ==> t.phase.RecvWait? || t.phase.SendWait?)
  {
    Known(m.tasks, p);
    var t := m.tasks[p];
    if t.phase.RecvDequeue? && t.phase.src in t.senders {
      assert t.phase.src in m.tasks;
    }
    if t.phase.RecvCopy? || t.phase.RecvUnlink? || t.phase.RecvAck? {
      Known(m.tasks, t.phase.sender);
    }
  }

  lemma ByEvent(m: State, step: Step, m': State, p: int, added: seq<Event>)
    requires |added| <= 1 && m'.log == m.log + added
    requires Changes(Stands(m, p), LastWant(m.log, p), AskOf(Reached(m), step, p),
                     ReturnsBy(added, p, LastWant(m.log, p)), WantAfter(added, p, LastWant(m.log, p)), Stands(m', p))
    ensures StepChanges(m, step, m', p)
  {
  }

  lemma DequeueChanges(m: State, q: int, p: int)
    requires Inv(m) && Enabled(m, Dequeue(q))
    ensures StepChanges(m, Dequeue(q), Apply(m, Dequeue(q)), p)
  {
    ReceiverKnown(m, q);
    DequeueResult(m, q);
    hide Inv, DoDequeue, Without, LastWant;
    ByEvent(m, Dequeue(q), Apply(m, Dequeue(q)), p, [Take(q, m.tasks[q].phase.src, NextSender(m.tasks[q]))]);
  }

  lemma CopyOutChanges(m: State, q: int, p: int)
    requires Inv(m) && Enabled(m, CopyOut(q))
    ensures StepChanges(m, CopyOut(q), Apply(m, CopyOut(q)), p)
  {
    ReceiverKnown(m, q);
    hide Inv, LastWant;
    ByEvent(m, CopyOut(q), Apply(m, CopyOut(q)), p, [Copy(q, m.tasks[m.tasks[q].phase.sender].msg)]);
  }

  lemma EnqueueChanges(m: State, q: int, p: int)
    requires Inv(m) && Enabled(m, Enqueue(q))
    ensures StepChanges(m, Enqueue(q), Apply(m, Enqueue(q)), p)
  {
    SendStartKnown(m, q);
    hide Inv, LastWant;
    ByEvent(m, Enqueue(q), Apply(m, Enqueue(q)), p, [Post(m.tasks[q].sendTo, m.tasks[q].msg)]);
  }

  /** inform_received. */
  lemma InformChanges(m: State, step: Step, p: int)
    requires Inv(m) && Enabled(m, step) && (step.Unlink? || step.Acknowledge?)
    ensures StepChanges(m, step, Apply(m, step), p)
  {
    ReceiverKnown(m, step.p);
    hide Inv, LastWant;
    ByEvent(m, step, Apply(m, step), p, []);
  }

  lemma ReturnChanges(m: State, step: Step, p: int)
    requires Inv(m) && Enabled(m, step) && (step.ClearIntr? || step.EndRecv?)
    ensures StepChanges(m, step, Apply(m, step), p)
  {
    hide Inv, LastWant;
    ByEvent(m, step, Apply(m, step), p,
            [if step.ClearIntr? then Notify(step.p) else Deliver(step.p, m.tasks[step.p].phase.got)]);
  }

  predicate TwoTasks(step: Step) {
    step.Dequeue? || step.CopyOut? || step.Enqueue? || step.Unlink? || step.Acknowledge?
  }

  /** The steps that write at most one task's record and return nothing. */
  lemma OneChanges(m: State, step: Step, p: int)
    requires Inv(m) && Enabled(m, step) && !TwoTasks(step) && !step.ClearIntr? && !step.EndRecv?
    ensures StepChanges(m, step, Apply(m, step), p)
  {
    if step.p in m.tasks {
      ReceiverKnown(m, step.p);
      CheckedIs(m.tasks[step.p]);
    }
    hide Inv, LastWant, Quiet, Checked;
    var m' := Apply(m, step);
    if m'.log == m.log {
      assert m.log + [] == m.log;
      ByEvent(m, step, m', p, []);
    } else {
      ByEvent(m, step, m', p, [m'.log[|m.log|]]);
    }
  }

  lemma EveryStepChanges(m: State, step: Step, p: int)
    requires Inv(m) && Enabled(m, step)
    ensures StepChanges(m, step, Apply(m, step), p)
  {
    hide Inv, Enabled, Apply, StepChanges;
    match step
    case Dequeue(q) => DequeueChanges(m, q, p);
    case CopyOut(q) => CopyOutChanges(m, q, p);
    case Enqueue(q) => EnqueueChanges(m, q, p);
    case Unlink(q) => InformChanges(m, step, p);
    case Acknowledge(q) => InformChanges(m, step, p);
    case ClearIntr(q) => ReturnChanges(m, step, p);
    case EndRecv(q) => ReturnChanges(m, step, p);
    case _ => OneChanges(m, step, p);
  }

  // ---------------------------------------------------------------- every call gets its own answer

  /** The calls so far have been answered, each in its turn, but for the one under way. */
  ghost predicate Answered(asked: seq<int>, rs: seq<Return>, want: int, at: Standing) {
    && |asked| == |rs| + (if at == Outside then 0 else 1)
    && (forall k :: 0 <= k < |rs| ==> Answers(asked[k], rs[k]))
    && match at
       case Outside => true
       case Asking(src) => src == asked[|rs|]
       case Told(src) => src == asked[|rs|] && (src == RECV_FROM_ANY || src == RECV_FROM_INT)
       case Taking(src, _) => src == asked[|rs|] && src != RECV_FROM_INT && want == src
       case HasGot(m) =>
         && asked[|rs|] != RECV_FROM_INT && want == asked[|rs|]
         && (asked[|rs|] == RECV_FROM_ANY || m.src == asked[|rs|])
  }

  lemma ChangeAnswered(asked: seq<int>, rs: seq<Return>, x: Standing, want: int, ask: seq<int>, ret: seq<Return>,
          want': int, y: Standing)
    requires Answered(asked, rs, want, x) && Changes(x, want, ask, ret, want', y)
    ensures Answered(asked + ask, rs + ret, want', y)
  {
  }

  lemma AddedReturns(log: seq<Event>, added: seq<Event>, p: int)
    requires |added| <= 1
    ensures Returns(log + added, p) == Returns(log, p) + ReturnsBy(added, p, LastWant(log, p))
    ensures LastWant(log + added, p) == WantAfter(added, p, LastWant(log, p))
  {
    if added == [] {
      assert log + added == log;
    } else {
      ReturnsAppend(log, added[0], p);
      assert added == [added[0]];
    }
  }

  lemma StepAnswered(m: State, step: Step, p: int, asked: seq<int>)
    requires Inv(m) && Enabled(m, step) && Answered(asked, Returns(m.log, p), LastWant(m.log, p), Stands(m, p))
    ensures var m' := Apply(m, step);
            Answered(asked + AskOf(Reached(m), step, p), Returns(m'.log, p), LastWant(m'.log, p), Stands(m', p))
  {
    var m' := Apply(m, step);
    EveryStepChanges(m, step, p);
    var want := LastWant(m.log, p);
    hide Inv, Enabled, Apply, Stands, Answered, Changes, Returns, LastWant, ReturnOf, AskOf, ReturnsBy, WantAfter;
    var added: seq<Event> :| |added| <= 1 && m'.log == m.log + added
      && Changes(Stands(m, p), want, AskOf(Reached(m), step, p), ReturnsBy(added, p, want), WantAfter(added, p, want),
                 Stands(m', p));
    AddedReturns(m.log, added, p);
    ChangeAnswered(asked, Returns(m.log, p), Stands(m, p), want, AskOf(Reached(m), step, p),
                   ReturnsBy(added, p, want), WantAfter(added, p, want), Stands(m', p));
  }

  /**
   Over every run: the k-th return of msg_recv to p answers the k-th call that was accepted. A call for a task returns
   a message of that task, for which it took that task off the list; a call for interrupts returns an interrupt; a call
   for anybody returns either. At most the last call is still to return.
   */
  lemma {:induction false} ReturnsAnswerCalls(steps: seq<Step>, p: int)
    requires Exec(steps).Reached?
    ensures var m := Exec(steps).st;
            var asked, rs := Asked(steps, p), Returns(m.log, p);
            && |rs| <= |asked| <= |rs| + 1
            && (forall k :: 0 <= k < |rs| ==> Answers(asked[k], rs[k]))
            && (|asked| == |rs| <==> Stands(m, p) == Outside)
    ensures var m := Exec(steps).st; Answered(Asked(steps, p), Returns(m.log, p), LastWant(m.log, p), Stands(m, p))
  {
    if steps == [] {
      assert Returns(Boot.log, p) == [];
    } else {
      var before, step := steps[..|steps| - 1], steps[|steps| - 1];
      ReturnsAnswerCalls(before, p);
      RunsRefineMailbox(before);
      hide Inv, Enabled, Apply, Returns, LastWant, AskOf, Stands;
      StepAnswered(Exec(before).st, step, p, Asked(before, p));
      assert AskOf(Exec(before), step, p) == AskOf(Reached(Exec(before).st), step, p);
    }
  }

  /** The messages among the returns are the deliveries, in order. */
  function Messages(rs: seq<Return>): seq<Message> {
    if rs == [] then []
    else Messages(rs[..|rs| - 1]) + if rs[|rs| - 1].Got? then [rs[|rs| - 1].m] else []
  }

  lemma {:induction false} MessagesAreDeliveries(log: seq<Event>, p: int)
    ensures Messages(Returns(log, p)) == Deliveries(log, p)
  {
    if log != [] {
      var before, e := log[..|log| - 1], log[|log| - 1];
      MessagesAreDeliveries(before, p);
      var rs, r := Returns(before, p), ReturnOf(e, p, LastWant(before, p));
      hide Returns, LastWant;
      if r == [] {
        assert rs + r == rs;
      } else {
        assert (rs + r)[..|rs|] == rs && (rs + r)[|rs|] == r[0];
      }
    }
  }
}
