/**
 Messages do get through: in every reachable state two idle tasks can exchange a message by their own steps and the
 polls of the scheduler, whatever the other tasks are in the middle of.
 */
module IpcExchange {
  import opened Mailbox
  import opened Ipc
  import opened IpcRefinement
  import opened IpcInterrupts
  import C = IpcChecks
  import Constants
  import Words

  function Asking(steps: seq<Step>, q: int, p: int): seq<Step> {
    steps + [BeginRecv(q, p)] + [SetFlag(q)] + [BlockRecv(q)]
  }

  lemma {:induction false} Asks(steps: seq<Step>, q: int, p: int)
    requires Exec(steps).Reached? && p in Exec(steps).st.tasks && q in Exec(steps).st.tasks
    requires Exec(steps).st.tasks[q].phase == Idle
    ensures var m := Exec(steps).st;
            var t := m.tasks[q].(phase := RecvWait(p), recvFrom := p, recvFlag := true);
            Exec(Asking(steps, q, p)) == Reached(Set(m, q, t))
  {
    hide Exec, Quiet;
    ExecNext(steps, BeginRecv(q, p));
    ExecNext(steps + [BeginRecv(q, p)], SetFlag(q));
    ExecNext(steps + [BeginRecv(q, p)] + [SetFlag(q)], BlockRecv(q));
  }

  function Posting(steps: seq<Step>, p: int, q: int, msg: Message): seq<Step> {
    steps + [BeginSend(p, q, msg)] + [Enqueue(p)]
  }

  lemma {:induction false} Posts(steps: seq<Step>, p: int, q: int, msg: Message)
    requires Exec(steps).Reached? && p in Exec(steps).st.tasks && q in Exec(steps).st.tasks && p != q
    requires Exec(steps).st.tasks[p].phase == Idle
    ensures var m, m' := Exec(steps).st, Exec(Posting(steps, p, q, msg));
            && m'.Reached? && m'.st.log == m.log + [Post(q, msg.(src := p))]
            && p in m'.st.tasks && q in m'.st.tasks
            && m'.st.tasks[q] == m.tasks[q].(senders := m.tasks[q].senders + [p])
            && m'.st.tasks[p] == m.tasks[p].(phase := SendQueued, stage := Queued, sendTo := q, msg := msg.(src := p))
  {
    hide Exec, Quiet;
    var m := Exec(steps).st;
    ExecNext(steps, BeginSend(p, q, msg));
    var m1 := Exec(steps + [BeginSend(p, q, msg)]).st;
    assert m1 == Set(m, p, m.tasks[p].(phase := SendStart, sendTo := q, msg := msg.(src := p)));
    ExecNext(steps + [BeginSend(p, q, msg)], Enqueue(p));
  }

  function Blocking(steps: seq<Step>, p: int): seq<Step> {
    steps + [CountSend(p)] + [BlockSend(p)]
  }

  lemma {:induction false} Blocks(steps: seq<Step>, p: int)
    requires Exec(steps).Reached? && p in Exec(steps).st.tasks && Exec(steps).st.tasks[p].phase == SendQueued
    ensures var m := Exec(steps).st;
            var flag := Words.Wrap(m.tasks[p].sendFlag + 1);
            Exec(Blocking(steps, p)) == Reached(Set(m, p, m.tasks[p].(phase := SendWait, sendFlag := flag)))
  {
    hide Exec, Quiet, Words.Wrap;
    ExecNext(steps, CountSend(p));
    ExecNext(steps + [CountSend(p)], BlockSend(p));
  }

  // ---------------------------------------------------------------- the receiver is polled

  /** Reads until the check has come to its end. */
  function ReadAll(steps: seq<Step>, q: int, n: nat): seq<Step>
    decreases n
  {
    if n == 0 then steps else ReadAll(steps + [ContinueCheck(q)], q, n - 1)
  }

  /** One read of a check that will pass. */
  lemma NextRead(t: Task, n: nat)
    requires t.recvFrom in t.senders && Specific(t.recvFrom)
    requires t.check in {ReadIntr, ReadQueue, ReadSource, FindSource, ClearFlag}
    requires n == if t.check == ReadIntr && t.hasIntr then 4 else C.Rank(t.check)
    ensures var u := Checked(t);
            && u == t.(check := u.check, recvFlag := t.recvFlag && t.check != ClearFlag)
            && u.check in {ReadQueue, ReadSource, FindSource, ClearFlag, Passed} && C.Rank(u.check) == n - 1
            && (u.check == Passed <==> t.check == ClearFlag)
  {
  }

  lemma {:induction false} ReadsPass(steps: seq<Step>, q: int, n: nat)
    requires Exec(steps).Reached? && q in Exec(steps).st.tasks
    requires var t := Exec(steps).st.tasks[q];
             && t.recvFrom in t.senders && t.recvFrom in Exec(steps).st.tasks && Specific(t.recvFrom)
             && t.check in {ReadIntr, ReadQueue, ReadSource, FindSource, ClearFlag, Passed}
             && n == if t.check == ReadIntr && t.hasIntr then 4 else C.Rank(t.check)
    ensures var m := Exec(steps).st;
            var t := m.tasks[q].(check := Passed, recvFlag := m.tasks[q].recvFlag && n == 0);
            Exec(ReadAll(steps, q, n)) == Reached(Set(m, q, t))
    decreases n
  {
    var m := Exec(steps).st;
    var t := m.tasks[q];
    if n == 0 {
      assert m.tasks == m.tasks[q := t];
    } else {
      ExecNext(steps, ContinueCheck(q));
      hide Exec;
      var t' := Checked(t);
      assert Apply(m, ContinueCheck(q)) == Set(m, q, t');
      NextRead(t, n);
      hide Apply, Checked;
      ReadsPass(steps + [ContinueCheck(q)], q, n - 1);
      SetTwice(m, q, t', t.(check := Passed, recvFlag := false));
    }
  }

  lemma {:induction false} ChecksBegin(steps: seq<Step>, q: int)
    requires Exec(steps).Reached? && q in Exec(steps).st.tasks
    requires var t := Exec(steps).st.tasks[q]; t.check == NoCheck && (t.phase.RecvWait? || t.phase.SendWait?)
    ensures var m := Exec(steps).st;
            var check := if m.tasks[q].recvFlag then ReadIntr else ReadSendFlag;
            Exec(steps + [StartCheck(q)]) == Reached(Set(m, q, m.tasks[q].(check := check)))
  {
    ExecNext(steps, StartCheck(q));
    hide Exec;
  }

  function Checking(steps: seq<Step>, q: int, told: bool): seq<Step> {
    ReadAll(steps + [StartCheck(q)], q, if told then 4 else 5)
  }

  /** A receiver whose sender is in its list is let go. */
  lemma {:induction false} CheckPasses(steps: seq<Step>, q: int)
    requires Exec(steps).Reached? && q in Exec(steps).st.tasks
    requires var t := Exec(steps).st.tasks[q];
             && t.phase.RecvWait? && t.check == NoCheck && t.recvFlag
             && t.recvFrom in t.senders && t.recvFrom in Exec(steps).st.tasks && Specific(t.recvFrom)
    ensures var m := Exec(steps).st;
            var t := m.tasks[q].(check := Passed, recvFlag := false);
            Exec(Checking(steps, q, m.tasks[q].hasIntr)) == Reached(Set(m, q, t))
  {
    var m := Exec(steps).st;
    var t := m.tasks[q].(check := ReadIntr);
    ChecksBegin(steps, q);
    hide Exec, ReadAll;
    ReadsPass(steps + [StartCheck(q)], q, if t.hasIntr then 4 else 5);
    SetTwice(m, q, t, t.(check := Passed, recvFlag := false));
  }

  // ---------------------------------------------------------------- the receiver takes the message

  function Resuming(steps: seq<Step>, q: int): seq<Step> {
    steps + [Unblock(q)] + [Resume(q)]
  }

  lemma {:induction false} Resumes(steps: seq<Step>, q: int, p: int)
    requires Exec(steps).Reached? && q in Exec(steps).st.tasks && 0 <= p
    requires Exec(steps).st.tasks[q].phase == RecvWait(p) && Exec(steps).st.tasks[q].check == Passed
    ensures var m := Exec(steps).st;
            Exec(Resuming(steps, q)) == Reached(Set(m, q, m.tasks[q].(phase := RecvDequeue(p), check := NoCheck)))
  {
    hide Exec, Quiet;
    ExecNext(steps, Unblock(q));
    ExecNext(steps + [Unblock(q)], Resume(q));
  }

  lemma {:induction false} Dequeues(steps: seq<Step>, q: int, p: int)
    requires Exec(steps).Reached? && q in Exec(steps).st.tasks && Exec(steps).st.tasks[q].phase == RecvDequeue(p)
    requires p in Exec(steps).st.tasks && p != q
    ensures var m, m' := Exec(steps).st, Exec(steps + [Dequeue(q)]);
            && m'.Reached? && p in m'.st.tasks && q in m'.st.tasks && m'.st.log == m.log + [Take(q, p, p)]
            && m'.st.tasks[p] == m.tasks[p].(stage := Held(q))
            && m'.st.tasks[q].phase == RecvCopy(p, p)
  {
    var m := Exec(steps).st;
    RunsRefineMailbox(steps);
    SourceIsTask(m, q);
    DequeueResult(m, q);
    hide Exec, Inv, DoDequeue, Without;
    ExecNext(steps, Dequeue(q));
  }

  lemma SourceIsTask(m: State, q: int)
    requires Inv(m) && q in m.tasks && m.tasks[q].phase.RecvDequeue?
    ensures m.tasks[q].phase.src in m.tasks ==> 0 <= m.tasks[q].phase.src
  {
  }

  lemma {:induction false} CopiesOut(steps: seq<Step>, q: int, p: int)
    requires Exec(steps).Reached? && q in Exec(steps).st.tasks && Exec(steps).st.tasks[q].phase == RecvCopy(p, p)
    requires p in Exec(steps).st.tasks && p != q
    ensures var m, m' := Exec(steps).st, Exec(steps + [CopyOut(q)]);
            && m'.Reached? && p in m'.st.tasks && q in m'.st.tasks && m'.st.log == m.log + [Copy(q, m.tasks[p].msg)]
            && m'.st.tasks[p] == m.tasks[p].(stage := Copied(q))
            && m'.st.tasks[q].phase == RecvUnlink(p, m.tasks[p].msg)
  {
    hide Exec, Quiet;
    ExecNext(steps, CopyOut(q));
  }

  lemma {:induction false} Unlinks(steps: seq<Step>, q: int, p: int, msg: Message)
    requires Exec(steps).Reached? && q in Exec(steps).st.tasks && Exec(steps).st.tasks[q].phase == RecvUnlink(p, msg)
    requires p in Exec(steps).st.tasks && p != q
    ensures var m, m' := Exec(steps).st, Exec(steps + [Unlink(q)]);
            && m'.Reached? && p in m'.st.tasks && q in m'.st.tasks && m'.st.log == m.log
            && m'.st.tasks[p] == m.tasks[p].(sendTo := Constants.PID_NO_TASK)
            && m'.st.tasks[q].phase == RecvAck(p, msg)
  {
    hide Exec, Quiet;
    ExecNext(steps, Unlink(q));
  }

  lemma {:induction false} Acks(steps: seq<Step>, q: int, p: int, msg: Message)
    requires Exec(steps).Reached? && q in Exec(steps).st.tasks && Exec(steps).st.tasks[q].phase == RecvAck(p, msg)
    requires p in Exec(steps).st.tasks && p != q
    ensures var m, m' := Exec(steps).st, Exec(steps + [Acknowledge(q)]);
            && m'.Reached? && p in m'.st.tasks && q in m'.st.tasks && m'.st.log == m.log
            && m'.st.tasks[p].phase == m.tasks[p].phase && m'.st.tasks[p].check == m.tasks[p].check
            && m'.st.tasks[p].recvFlag == m.tasks[p].recvFlag && m'.st.tasks[p].stage == Acked
            && m'.st.tasks[q].phase == RecvDone(msg)
  {
    hide Exec, Quiet, Words.Wrap;
    ExecNext(steps, Acknowledge(q));
  }

  lemma {:induction false} DeliversIt(steps: seq<Step>, q: int, msg: Message)
    requires Exec(steps).Reached? && q in Exec(steps).st.tasks && Exec(steps).st.tasks[q].phase == RecvDone(msg)
    ensures var m := Exec(steps).st;
            Exec(steps + [EndRecv(q)]) == Reached(Say(Set(m, q, m.tasks[q].(phase := Idle)), Deliver(q, msg)))
  {
    hide Exec, Quiet;
    ExecNext(steps, EndRecv(q));
  }

  /** msg_recv from the dequeue to its return. */
  function Taking(steps: seq<Step>, q: int): seq<Step> {
    steps + [Dequeue(q)] + [CopyOut(q)] + [Unlink(q)] + [Acknowledge(q)] + [EndRecv(q)]
  }

  lemma {:induction false} Takes(steps: seq<Step>, q: int, p: int)
    requires Exec(steps).Reached? && q in Exec(steps).st.tasks && Exec(steps).st.tasks[q].phase == RecvDequeue(p)
    requires p in Exec(steps).st.tasks && p != q
    ensures var m, m' := Exec(steps).st, Exec(Taking(steps, q));
            && m'.Reached? && p in m'.st.tasks && q in m'.st.tasks && m'.st.tasks[q].phase == Idle
            && m'.st.log == m.log + [Take(q, p, p)] + [Copy(q, m.tasks[p].msg)] + [Deliver(q, m.tasks[p].msg)]
            && m'.st.tasks[p].phase == m.tasks[p].phase && m'.st.tasks[p].check == m.tasks[p].check
            && m'.st.tasks[p].recvFlag == m.tasks[p].recvFlag && m'.st.tasks[p].stage == Acked
  {
    var msg := Exec(steps).st.tasks[p].msg;
    hide Exec;
    Dequeues(steps, q, p);
    var s1 := steps + [Dequeue(q)];
    CopiesOut(s1, q, p);
    var s2 := s1 + [CopyOut(q)];
    Unlinks(s2, q, p, msg);
    Acks(s2 + [Unlink(q)], q, p, msg);
    DeliversIt(s2 + [Unlink(q)] + [Acknowledge(q)], q, msg);
  }

  // ---------------------------------------------------------------- the sender is let go

  lemma {:induction false} SenderPasses(steps: seq<Step>, p: int)
    requires Exec(steps).Reached? && p in Exec(steps).st.tasks
    requires var t := Exec(steps).st.tasks[p]; t.check == ReadSendFlag && Words.Signed(t.sendFlag) <= 0
    ensures var m := Exec(steps).st;
            Exec(steps + [ContinueCheck(p)]) == Reached(Set(m, p, m.tasks[p].(check := Passed)))
  {
    hide Exec, Quiet, Words.Signed;
    ExecNext(steps, ContinueCheck(p));
  }

  lemma {:induction false} SenderWakes(steps: seq<Step>, p: int)
    requires Exec(steps).Reached? && p in Exec(steps).st.tasks
    requires var t := Exec(steps).st.tasks[p]; t.phase == SendWait && t.check == Passed
    ensures var m := Exec(steps).st;
            var t := m.tasks[p].(phase := Idle, check := NoCheck, stage := NoMessage);
            Exec(steps + [Unblock(p)] + [EndSend(p)]) == Reached(Say(Set(m, p, t), Finish(p)))
  {
    hide Exec, Quiet;
    ExecNext(steps, Unblock(p));
    ExecNext(steps + [Unblock(p)], EndSend(p));
  }

  function Finishing(steps: seq<Step>, p: int): seq<Step> {
    steps + [StartCheck(p)] + [ContinueCheck(p)] + [Unblock(p)] + [EndSend(p)]
  }

  lemma {:induction false} AckedIsLow(steps: seq<Step>, p: int)
    requires Exec(steps).Reached? && p in Exec(steps).st.tasks
    requires var t := Exec(steps).st.tasks[p]; t.phase == SendWait && t.stage == Acked
    ensures Words.Signed(Exec(steps).st.tasks[p].sendFlag) <= 0
  {
    hide Exec, Words.Signed;
    SendFlagBounded(steps, p);
  }

  lemma SetTwice(m: State, p: int, t: Task, u: Task)
    ensures Set(Set(m, p, t), p, u) == Set(m, p, u)
  {
    assert m.tasks[p := t][p := u] == m.tasks[p := u];
  }

  lemma {:induction false} SenderChecked(steps: seq<Step>, p: int)
    requires Exec(steps).Reached? && p in Exec(steps).st.tasks
    requires var t := Exec(steps).st.tasks[p];
             t.phase == SendWait && t.check == NoCheck && !t.recvFlag && Words.Signed(t.sendFlag) <= 0
    ensures var m := Exec(steps).st;
            Exec(steps + [StartCheck(p)] + [ContinueCheck(p)]) == Reached(Set(m, p, m.tasks[p].(check := Passed)))
  {
    var m := Exec(steps).st;
    var t := m.tasks[p];
    ChecksBegin(steps, p);
    SenderPasses(steps + [StartCheck(p)], p);
    SetTwice(m, p, t.(check := ReadSendFlag), t.(check := Passed));
    hide Exec, Words.Signed;
  }

  lemma {:induction false} SenderFinishes(steps: seq<Step>, p: int)
    requires Exec(steps).Reached? && p in Exec(steps).st.tasks
    requires var t := Exec(steps).st.tasks[p];
             t.phase == SendWait && t.check == NoCheck && !t.recvFlag && t.stage == Acked
    ensures var m := Exec(steps).st;
            var t := m.tasks[p].(phase := Idle, stage := NoMessage);
            Exec(Finishing(steps, p)) == Reached(Say(Set(m, p, t), Finish(p)))
  {
    var m := Exec(steps).st;
    var t := m.tasks[p];
    AckedIsLow(steps, p);
    hide Exec, Words.Signed;
    SenderChecked(steps, p);
    SenderWakes(steps + [StartCheck(p)] + [ContinueCheck(p)], p);
    SetTwice(m, p, t.(check := Passed), t.(phase := Idle, stage := NoMessage));
  }

  // ---------------------------------------------------------------- the whole exchange

  /** q asks for a message of p, p sends it, q is polled and takes it, and p is polled. */
  function Exchanging(steps: seq<Step>, p: int, q: int, msg: Message, told: bool): seq<Step> {
    var s1 := Blocking(Posting(Asking(steps, q, p), p, q, msg), p);
    Finishing(Taking(Resuming(Checking(s1, q, told), q), q), p)
  }

  lemma IdleKnown(m: State, p: int)
    requires Inv(m) && p in m.tasks && m.tasks[p].phase == Idle
    ensures m.tasks[p].check == NoCheck && !m.tasks[p].recvFlag
  {
    Known(m.tasks, p);
  }

  lemma {:induction false} PostedThenBlocked(steps: seq<Step>, p: int, q: int)
    requires Exec(steps).Reached? && p in Exec(steps).st.tasks && q in Exec(steps).st.tasks && p != q
    requires Exec(steps).st.tasks[p].phase == SendQueued
    ensures var m, m' := Exec(steps).st, Exec(Blocking(steps, p));
            && m'.Reached? && m'.st.log == m.log && p in m'.st.tasks && q in m'.st.tasks
            && m'.st.tasks[q] == m.tasks[q]
            && m'.st.tasks[p] == m.tasks[p].(phase := SendWait, sendFlag := m'.st.tasks[p].sendFlag)
  {
    hide Exec, Blocking, Words.Wrap;
    Blocks(steps, p);
  }

  lemma {:induction false} Prepared(steps: seq<Step>, p: int, q: int, msg: Message)
    requires Exec(steps).Reached? && p in Exec(steps).st.tasks && q in Exec(steps).st.tasks && p != q
    requires Exec(steps).st.tasks[p].phase == Idle && Exec(steps).st.tasks[q].phase == Idle
    ensures var m, m' := Exec(steps).st, Exec(Blocking(Posting(Asking(steps, q, p), p, q, msg), p));
            && m'.Reached? && m'.st.log == m.log + [Post(q, msg.(src := p))]
            && p in m'.st.tasks && q in m'.st.tasks
            && var (t, u) := (m'.st.tasks[q], m'.st.tasks[p]);
               && t.phase == RecvWait(p) && t.check == NoCheck && t.recvFlag && t.recvFrom == p && p in t.senders
               && t.hasIntr == m.tasks[q].hasIntr
               && u.phase == SendWait && u.check == NoCheck && !u.recvFlag && u.msg == msg.(src := p)
  {
    var m := Exec(steps).st;
    RunsRefineMailbox(steps);
    IdleKnown(m, p);
    IdleKnown(m, q);
    hide Exec, Inv, Asking, Posting, Blocking, Words.Wrap, Judge, Refines;
    Asks(steps, q, p);
    var s1 := Asking(steps, q, p);
    var m1 := Exec(s1).st;
    assert m1.tasks[p] == m.tasks[p];
    assert m1.tasks[q] == m.tasks[q].(phase := RecvWait(p), recvFrom := p, recvFlag := true);
    hide Set;
    Posts(s1, p, q, msg);
    PostedThenBlocked(Posting(s1, p, q, msg), p, q);
  }

  /**
   From every reachable state in which two tasks are idle: the message that p sends is returned to q, which asked for
   one of p, msg_send returns to p, and both are idle again.
   */
  lemma {:induction false} MessageGetsThrough(steps: seq<Step>, p: int, q: int, msg: Message)
    requires Exec(steps).Reached? && p in Exec(steps).st.tasks && q in Exec(steps).st.tasks && p != q
    requires Exec(steps).st.tasks[p].phase == Idle && Exec(steps).st.tasks[q].phase == Idle
    ensures var m := Exec(steps).st;
            var m' := Exec(Exchanging(steps, p, q, msg, m.tasks[q].hasIntr));
            && m'.Reached? && p in m'.st.tasks && q in m'.st.tasks
            && m'.st.tasks[p].phase == Idle && m'.st.tasks[q].phase == Idle
            && m'.st.log == m.log + [Post(q, msg.(src := p))] + [Take(q, p, p)] + [Copy(q, msg.(src := p))]
                            + [Deliver(q, msg.(src := p))] + [Finish(p)]
  {
    var m := Exec(steps).st;
    RunsRefineMailbox(steps);
    PidsOk(m, p);
    hide Exec, Inv, Asking, Posting, Blocking, Checking, Resuming, Taking, Finishing;
    Prepared(steps, p, q, msg);
    var s1 := Blocking(Posting(Asking(steps, q, p), p, q, msg), p);
    CheckPasses(s1, q);
    var s2 := Checking(s1, q, m.tasks[q].hasIntr);
    Resumes(s2, q, p);
    Takes(Resuming(s2, q), q, p);
    SenderFinishes(Taking(Resuming(s2, q), q), p);
  }

  lemma PidsOk(m: State, p: int)
    requires Inv(m) && p in m.tasks
    ensures Specific(p)
  {
  }

  /** And two tasks can come to exist. */
  lemma TwoTasksCreated(p: int, q: int)
    requires Specific(p) && Specific(q) && p != q
    ensures Exec([Create(p), Create(q)]) == Reached(State(map[p := NewTask, q := NewTask], [], false))
  {
    ExecNext([], Create(p));
    assert [] + [Create(p)] == [Create(p)];
    ExecNext([Create(p)], Create(q));
    assert [Create(p)] + [Create(q)] == [Create(p), Create(q)];
  }
}
