/**
 The message-passing calls as code on the kernel's task records. Each method here runs without interference and is
 tied to the steps of the step system that it consists of; between any two of those steps other tasks may come in.
 */
module IpcCode {
  import opened Constants
  import opened Words
  import opened Mailbox
  import opened Ipc

  /** The steps of one task in a row; those that its program has passed by are left out. */
  ghost function Perform(st: State, steps: seq<Step>): State
    decreases |steps|
  {
    if steps == [] then st else Perform(if Enabled(st, steps[0]) then Apply(st, steps[0]) else st, steps[1..])
  }

  class Kernel {
    var tasks: Tasks
    var log: seq<Event>
    var fault: bool

    ghost function St(): State
      reads this
    {
      State(tasks, log, fault)
    }

    constructor (st: State)
      ensures St() == st
    {
      tasks, log, fault := st.tasks, st.log, st.fault;
    }

    /** wait_receviced: join the receiver's sender_list, count the message, block. */
    method WaitReceived(p: int)
      requires p in tasks && tasks[p].phase == SendStart && tasks[p].sendTo in tasks
      modifies this
      ensures St() == Perform(old(St()), [Enqueue(p), CountSend(p), BlockSend(p)])
    {
      ghost var st := St();
      var receiver := tasks[p].sendTo;
      tasks := tasks[p := tasks[p].(phase := SendQueued, stage := Queued)];
      tasks := tasks[receiver := tasks[receiver].(senders := tasks[receiver].senders + [p])];
      log := log + [Post(receiver, tasks[p].msg)];
      assert St() == Apply(st, Enqueue(p));
      ghost var st1 := St();
      tasks := tasks[p := tasks[p].(phase := SendCounted, sendFlag := Wrap(tasks[p].sendFlag + 1))];
      assert St() == Apply(st1, CountSend(p));
      ghost var st2 := St();
      tasks := tasks[p := tasks[p].(phase := SendWait)];
      assert St() == Apply(st2, BlockSend(p));
      Three(st, st1, st2, Enqueue(p), CountSend(p), BlockSend(p));
    }

    /** inform_received. */
    method InformReceived(p: int, sender: int)
      requires p in tasks && tasks[p].phase.RecvUnlink? && tasks[p].phase.sender == sender && sender in tasks &&
               sender != p
      modifies this
      ensures St() == Perform(old(St()), [Unlink(p), Acknowledge(p)])
      ensures p in tasks && tasks[p].phase == RecvDone(old(tasks)[p].phase.got)
    {
      ghost var st := St();
      var got := tasks[p].phase.got;
      tasks := tasks[p := tasks[p].(phase := RecvAck(sender, got))];
      tasks := tasks[sender := tasks[sender].(sendTo := PID_NO_TASK)];
      assert St() == Apply(st, Unlink(p));
      ghost var st1 := St();
      tasks := tasks[p := tasks[p].(phase := RecvDone(got))];
      tasks := tasks[sender := tasks[sender].(stage := Acked, sendFlag := Wrap(tasks[sender].sendFlag - 1))];
      assert St() == Apply(st1, Acknowledge(p));
      Two(st, st1, Unlink(p), Acknowledge(p));
    }

    /** msg_send; false stands for SYSCALL_DEST_NOT_EXIST. */
    method MsgSend(p: int, dst: int, m: Message) returns (ok: bool)
      requires p in tasks && tasks[p].phase == Idle
      modifies this
      ensures ok <==> dst in old(tasks)
      ensures St() == Perform(old(St()), [BeginSend(p, dst, m), Enqueue(p), CountSend(p), BlockSend(p)])
    {
      ghost var st := St();
      hide Perform;
      First(st, BeginSend(p, dst, m), [Enqueue(p), CountSend(p), BlockSend(p)],
          [BeginSend(p, dst, m), Enqueue(p), CountSend(p), BlockSend(p)]);
      tasks := tasks[p := tasks[p].(sendTo := PID_NO_TASK)];
      if dst !in tasks {
        assert St() == Apply(st, BeginSend(p, dst, m));
        NothingMore(St(), [Enqueue(p), CountSend(p), BlockSend(p)]);
        return false;
      }
      tasks := tasks[p := tasks[p].(phase := SendStart, sendTo := dst, msg := m.(src := p))];
      assert St() == Apply(st, BeginSend(p, dst, m));
      WaitReceived(p);
      return true;
    }

    /** msg_recv: set recv_flag and block. */
    method WaitForMessage(p: int)
      requires p in tasks && tasks[p].phase.RecvStart?
      modifies this
      ensures St() == Perform(old(St()), [SetFlag(p), BlockRecv(p)])
    {
      ghost var st := St();
      var src := tasks[p].phase.src;
      tasks := tasks[p := tasks[p].(phase := RecvFlagged(src), recvFlag := true)];
      ghost var st1 := St();
      assert st1 == Apply(st, SetFlag(p));
      tasks := tasks[p := tasks[p].(phase := RecvWait(src))];
      assert St() == Apply(st1, BlockRecv(p));
      Two(st, st1, SetFlag(p), BlockRecv(p));
    }

    /** msg_recv up to task_block; false stands for SYSCALL_SRC_NOT_EXIST. */
    method MsgRecvBegin(p: int, src: int) returns (ok: bool)
      requires p in tasks && tasks[p].phase == Idle
      modifies this
      ensures ok <==> src == RECV_FROM_ANY || src == RECV_FROM_INT || src in old(tasks)
      ensures St() == Perform(old(St()), [BeginRecv(p, src), SetFlag(p), BlockRecv(p)])
    {
      ghost var st := St();
      hide Perform;
      First(st, BeginRecv(p, src), [SetFlag(p), BlockRecv(p)], [BeginRecv(p, src), SetFlag(p), BlockRecv(p)]);
      tasks := tasks[p := tasks[p].(recvFrom := PID_NO_TASK)];
      if src != RECV_FROM_ANY && src != RECV_FROM_INT {
        if src !in tasks {
          assert St() == Apply(st, BeginRecv(p, src));
          NothingMore(St(), [SetFlag(p), BlockRecv(p)]);
          return false;
        }
      }
      tasks := tasks[p := tasks[p].(phase := RecvStart(src), recvFrom := src)];
      assert St() == Apply(st, BeginRecv(p, src));
      WaitForMessage(p);
      return true;
    }

    /** task_ipc_check of a waiting task. */
    method TaskIpcCheck(p: int) returns (r: bool)
      requires p in tasks && tasks[p].check == NoCheck && (tasks[p].phase.SendWait? || tasks[p].phase.RecvWait?)
      requires Specific(tasks[p].recvFrom) ==> tasks[p].recvFrom in tasks
      modifies this
      ensures St() == Perform(old(St()), [StartCheck(p)] + Reads(p, 5))
      ensures p in tasks && r == (tasks[p].check == Passed)
    {
      ghost var st := St();
      CheckOutcome(st, p);
      var t := tasks[p];
      if t.recvFlag {
        if !t.hasIntr && t.senders == [] {
          return false;
        }
        if t.recvFrom == RECV_FROM_INT && !t.hasIntr {
          return false;
        }
        if 0 <= t.recvFrom <= TASKS - 1 {
          if t.recvFrom !in t.senders {
            return false;
          }
        }
        tasks := tasks[p := t.(recvFlag := false, check := Passed)];
        return true;
      }
      if Signed(t.sendFlag) > 0 {
        return false;
      }
      tasks := tasks[p := t.(check := Passed)];
      return true;
    }

    /** Takes the sender off the list: the oldest one, or the one named. */
    method TakeSender(p: int) returns (sender: int)
      requires Inv(St()) && p in tasks && tasks[p].phase.RecvDequeue?
      modifies this
      ensures St() == Apply(old(St()), Dequeue(p)) && Inv(St())
      ensures p in tasks && tasks[p].phase.RecvCopy? && tasks[p].phase.sender == sender && sender in tasks &&
              sender != p
    {
      ghost var st := St();
      StepKeepsInv(st, Dequeue(p));
      Known(tasks, p);
      var t := tasks[p];
      if t.phase.src == RECV_FROM_ANY || t.phase.src == RECV_FROM_INT {
        sender := t.senders[0];
      } else {
        sender := t.phase.src;
      }
      TakenIs(st, p);
      hide Inv, Without;
      tasks := tasks[p := t.(phase := RecvCopy(t.phase.src, sender), senders := Without(t.senders, sender))];
      tasks := tasks[sender := tasks[sender].(stage := Held(p))];
      log := log + [Take(p, t.phase.src, sender)];
    }

    /** Copies the message out. */
    method CopyMessage(p: int) returns (m: Message)
      requires Inv(St()) && p in tasks && tasks[p].phase.RecvCopy?
      modifies this
      ensures St() == Apply(old(St()), CopyOut(p)) && Inv(St())
      ensures var s := old(tasks)[p].phase.sender;
              s in old(tasks) && s in tasks && s != p && m == old(tasks)[s].msg && p in tasks &&
                  tasks[p].phase == RecvUnlink(s, m)
    {
      ghost var st := St();
      StepKeepsInv(st, CopyOut(p));
      Known(tasks, p);
      var s := tasks[p].phase.sender;
      HolderIsOther(st.tasks, p);
      hide Inv;
      m := tasks[s].msg;
      tasks := tasks[p := tasks[p].(phase := RecvUnlink(s, m), recvFrom := PID_NO_TASK)];
      tasks := tasks[s := tasks[s].(stage := Copied(p))];
      log := log + [Copy(p, m)];
    }

    /** msg_recv after task_block: the interrupt if one is pending and wanted, otherwise a sender's message. */
    method MsgRecvFinish(p: int, buffer: Message) returns (m: Message)
      requires Inv(St()) && p in tasks && tasks[p].phase.RecvReady?
      modifies this
      ensures GetsIntr(old(tasks)[p]) ==>
                && St() == Perform(old(St()), [Resume(p), ClearIntr(p)])
                && m == buffer.(src := RECV_FROM_INT, kind := RECV_FROM_INT)
      ensures !GetsIntr(old(tasks)[p]) ==>
                && St() == Perform(old(St()),
                    [Resume(p), Dequeue(p), CopyOut(p)] + [Unlink(p), Acknowledge(p)] + [EndRecv(p)])
                && log != [] && log[|log| - 1] == Deliver(p, m)
    {
      ghost var st := St();
      StepKeepsInv(st, Resume(p));
      hide Inv, Perform;
      var src := tasks[p].phase.src;
      if src == RECV_FROM_ANY || src == RECV_FROM_INT {
        if tasks[p].hasIntr {
          tasks := tasks[p := tasks[p].(phase := RecvIntr(src))];
          ghost var st1 := St();
          assert st1 == Apply(st, Resume(p));
          tasks := tasks[p := tasks[p].(phase := Idle, recvFrom := PID_NO_TASK, hasIntr := false)];
          log := log + [Notify(p)];
          assert St() == Apply(st1, ClearIntr(p));
          Two(st, st1, Resume(p), ClearIntr(p));
          return buffer.(src := RECV_FROM_INT, kind := RECV_FROM_INT);
        }
      }
      tasks := tasks[p := tasks[p].(phase := RecvDequeue(src))];
      m := FetchMessage(p, st);
    }

    /** The return of msg_recv. */
    method EndReceive(p: int)
      requires p in tasks && tasks[p].phase.RecvDone?
      modifies this
      ensures Enabled(old(St()), EndRecv(p)) && St() == Apply(old(St()), EndRecv(p))
      ensures log == old(log) + [Deliver(p, old(tasks)[p].phase.got)]
    {
      log := log + [Deliver(p, tasks[p].phase.got)];
      tasks := tasks[p := tasks[p].(phase := Idle)];
    }

    /** The rest of msg_recv for a message from a sender. */
    method FetchMessage(p: int, ghost st: State) returns (m: Message)
      requires p in st.tasks && st.tasks[p].phase.RecvReady? && Enabled(st, Resume(p)) && St() == Apply(st, Resume(p))
      requires Inv(St()) && p in tasks && tasks[p].phase.RecvDequeue?
      modifies this
      ensures St() == Perform(st, [Resume(p), Dequeue(p), CopyOut(p)] + [Unlink(p), Acknowledge(p)] + [EndRecv(p)])
      ensures log != [] && log[|log| - 1] == Deliver(p, m)
    {
      hide Inv, Perform, Apply;
      ghost var st1 := St();
      var sender := TakeSender(p);
      ghost var st2 := St();
      m := CopyMessage(p);
      ghost var st3 := St();
      Three(st, st1, st2, Resume(p), Dequeue(p), CopyOut(p));
      InformReceived(p, sender);
      ghost var st4 := St();
      Then(st, [Resume(p), Dequeue(p), CopyOut(p)], [Unlink(p), Acknowledge(p)]);
      EndReceive(p);
      Then(st, [Resume(p), Dequeue(p), CopyOut(p)] + [Unlink(p), Acknowledge(p)], [EndRecv(p)]);
      One(st4, EndRecv(p));
    }
  }

  /** Whether a woken receiver takes the interrupt. */
  predicate GetsIntr(t: Task)
    requires t.phase.RecvReady?
  {
    (t.phase.src == RECV_FROM_ANY || t.phase.src == RECV_FROM_INT) && t.hasIntr
  }

  lemma {:induction false} Then(st: State, first: seq<Step>, rest: seq<Step>)
    ensures Perform(st, first + rest) == Perform(Perform(st, first), rest)
    decreases |first|
  {
    hide Enabled, Apply;
    if first == [] {
      assert first + rest == rest;
    } else {
      assert (first + rest)[0] == first[0] && (first + rest)[1..] == first[1..] + rest;
      Then(if Enabled(st, first[0]) then Apply(st, first[0]) else st, first[1..], rest);
    }
  }

  lemma HolderIsOther(ts: Tasks, p: int)
    requires TasksOk(ts) && p in ts && ts[p].phase.RecvCopy?
    ensures ts[p].phase.sender in ts && ts[p].phase.sender != p
  {
    Known(ts, p);
    Known(ts, ts[p].phase.sender);
  }

  lemma TakenIs(st: State, p: int)
    requires Inv(st) && p in st.tasks && st.tasks[p].phase.RecvDequeue?
    ensures var t := st.tasks[p];
            var any := t.phase.src == RECV_FROM_ANY || t.phase.src == RECV_FROM_INT;
            && (any ==> t.senders != [])
            && var s := if any then t.senders[0] else t.phase.src;
               s in t.senders && s in st.tasks && s != p
  {
    Known(st.tasks, p);
    var t := st.tasks[p];
    var any := t.phase.src == RECV_FROM_ANY || t.phase.src == RECV_FROM_INT;
    if any {
      assert t.senders != [];
      Known(st.tasks, t.senders[0]);
    } else {
      Known(st.tasks, t.phase.src);
    }
  }

  ghost function Reads(p: int, n: nat): seq<Step> {
    if n == 0 then [] else [ContinueCheck(p)] + Reads(p, n - 1)
  }

  lemma Next(st: State, a: Step, rest: seq<Step>)
    requires Enabled(st, a)
    ensures Perform(st, [a] + rest) == Perform(Apply(st, a), rest)
  {
    hide Enabled, Apply;
    assert ([a] + rest)[1..] == rest;
  }

  lemma First(st: State, a: Step, rest: seq<Step>, all: seq<Step>)
    requires Enabled(st, a) && |all| == |rest| + 1 && all[0] == a &&
             forall i :: 0 <= i < |rest| ==> all[i + 1] == rest[i]
    ensures Perform(st, all) == Perform(Apply(st, a), rest)
  {
    hide Enabled, Apply;
    assert all == [a] + rest;
    Next(st, a, rest);
  }

  /** A program that has stopped early passes the remaining steps by. */
  lemma {:induction false} NothingMore(st: State, steps: seq<Step>)
    requires forall s :: s in steps ==> !Enabled(st, s)
    ensures Perform(st, steps) == st
    decreases |steps|
  {
    hide Enabled;
    if steps != [] {
      NothingMore(st, steps[1..]);
    }
  }

  /** What n reads make of one task. */
  ghost function AfterReads(t: Task, n: nat): Task
    decreases n
  {
    if n == 0 then t else AfterReads(Checked(t), n - 1)
  }

  lemma {:induction false} ReadsRun(st: State, p: int, n: nat)
    requires p in st.tasks && (Specific(st.tasks[p].recvFrom) ==> st.tasks[p].recvFrom in st.tasks)
    requires st.tasks[p].check == FindSource ==> Specific(st.tasks[p].recvFrom)
    ensures Perform(st, Reads(p, n)) == Set(st, p, AfterReads(st.tasks[p], n))
    decreases n
  {
    var t := st.tasks[p];
    if n == 0 {
      assert Set(st, p, t) == st;
    } else {
      var st1 := Set(st, p, Checked(t));
      assert Reads(p, n)[1..] == Reads(p, n - 1);
      assert st1 == if Enabled(st, ContinueCheck(p)) then Apply(st, ContinueCheck(p)) else st;
      hide Enabled, Apply, Checked;
      ChecksKeepSource(t);
      ReadsRun(st1, p, n - 1);
      assert Set(st1, p, AfterReads(Checked(t), n - 1)) == Set(st, p, AfterReads(Checked(t), n - 1));
    }
  }

  lemma ChecksKeepSource(t: Task)
    ensures Checked(t).recvFrom == t.recvFrom &&
            (Checked(t).check == FindSource ==> Specific(t.recvFrom) || t.check == FindSource)
  {
  }

  lemma CheckStarts(st: State, p: int)
    requires p in st.tasks && st.tasks[p].check == NoCheck &&
             (st.tasks[p].phase.SendWait? || st.tasks[p].phase.RecvWait?)
    ensures Enabled(st, StartCheck(p))
    ensures Apply(st, StartCheck(p)) ==
              Set(st, p, st.tasks[p].(check := if st.tasks[p].recvFlag then ReadIntr else ReadSendFlag))
  {
  }

  /** The outcome of an undisturbed check, decided as the code decides it. */
  lemma CheckOutcome(st: State, p: int)
    requires p in st.tasks && st.tasks[p].check == NoCheck &&
             (st.tasks[p].phase.SendWait? || st.tasks[p].phase.RecvWait?)
    requires Specific(st.tasks[p].recvFrom) ==> st.tasks[p].recvFrom in st.tasks
    ensures var t := st.tasks[p];
            var pass := if t.recvFlag then
                          && (t.hasIntr || t.senders != []) && (t.recvFrom == RECV_FROM_INT ==> t.hasIntr)
                          && (Specific(t.recvFrom) ==> t.recvFrom in t.senders)
                        else Signed(t.sendFlag) <= 0;
            Perform(st, [StartCheck(p)] + Reads(p, 5)) ==
              if pass then Set(st, p, t.(check := Passed, recvFlag := false)) else st
  {
    hide Perform, Reads, AfterReads, Apply, Enabled, Signed;
    var t := st.tasks[p];
    var t1 := t.(check := if t.recvFlag then ReadIntr else ReadSendFlag);
    CheckStarts(st, p);
    Next(st, StartCheck(p), Reads(p, 5));
    ReadsRun(Set(st, p, t1), p, 5);
    FiveReads(t1);
    assert Set(Set(st, p, t1), p, AfterReads(t1, 5)) == Set(st, p, AfterReads(t1, 5));
    assert Set(st, p, t) == st;
  }

  lemma FiveReads(t: Task)
    requires t.check == if t.recvFlag then ReadIntr else ReadSendFlag
    ensures var pass := if t.recvFlag then
                          && (t.hasIntr || t.senders != []) && (t.recvFrom == RECV_FROM_INT ==> t.hasIntr)
                          && (Specific(t.recvFrom) ==> t.recvFrom in t.senders)
                        else Signed(t.sendFlag) <= 0;
            AfterReads(t, 5) == if pass then t.(check := Passed, recvFlag := false) else t.(check := NoCheck)
  {
    var t1 := Checked(t);
    var t2 := Checked(t1);
    var t3 := Checked(t2);
    var t4 := Checked(t3);
    assert AfterReads(t, 5) == AfterReads(t1, 4) == AfterReads(t2, 3) == AfterReads(t3, 2) == AfterReads(t4, 1) ==
        Checked(t4);
  }

  lemma One(st: State, a: Step)
    requires Enabled(st, a)
    ensures Perform(st, [a]) == Apply(st, a)
  {
    hide Enabled, Apply;
    assert [a][1..] == [];
  }

  lemma Two(st: State, st1: State, a: Step, b: Step)
    requires Enabled(st, a) && st1 == Apply(st, a) && Enabled(st1, b)
    ensures Perform(st, [a, b]) == Apply(st1, b)
  {
    hide Enabled, Apply;
    assert [a, b][1..] == [b] && [b][1..] == [];
    assert Perform(st1, [b]) == Perform(Apply(st1, b), []);
  }

  lemma Three(st: State, st1: State, st2: State, a: Step, b: Step, c: Step)
    requires Enabled(st, a) && st1 == Apply(st, a) && Enabled(st1, b) && st2 == Apply(st1, b) && Enabled(st2, c)
    ensures Perform(st, [a, b, c]) == Apply(st2, c)
  {
    hide Enabled, Apply;
    assert [a, b, c][1..] == [b, c];
    Two(st1, st2, b, c);
  }
}
