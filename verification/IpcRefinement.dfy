/**
 Every run of the message-passing protocol is a run of the mailbox automaton: the state of the
 kernel mirrors the state of the automaton after each step, so the log of a run is always legal.
 */
module IpcRefinement {
  import opened Mailbox
  import opened Ipc

  function OutOf(t: Task): Outgoing {
    match t.stage
    case NoMessage => Nothing
    case Queued => Posted(t.sendTo, t.msg)
    case Held(r) => Taken(r, t.msg)
    case Copied(_) => Handed
    case Acked => Handed
  }

  function HandOf(ts: Tasks, t: Task): Incoming {
    match t.phase
    case RecvCopy(_, s) => if s in ts then Holding(ts[s].msg) else Empty
    case RecvUnlink(_, m) => Ready(m)
    case RecvAck(_, m) => Ready(m)
    case RecvDone(m) => Ready(m)
    case _ => Empty
  }

  ghost predicate MailMirrors(ts: Tasks, q: seq<int>, mail: seq<Message>) {
    |mail| == |q| && forall i :: 0 <= i < |q| ==> q[i] in ts && mail[i] == ts[q[i]].msg
  }

  ghost predicate Mirrors(ts: Tasks, b: Box, p: int)
    requires p in ts
  {
    && MailMirrors(ts, ts[p].senders, Mail(b, p))
    && Out(b, p) == OutOf(ts[p])
    && Hand(b, p) == HandOf(ts, ts[p])
    && (p in b.intr <==> ts[p].hasIntr)
  }

  ghost predicate Refines(ts: Tasks, b: Box) {
    && (forall p {:trigger Mirrors(ts, b, p)} :: p in ts ==> Mirrors(ts, b, p))
    && (forall p {:trigger Mail(b, p)} :: p !in ts ==> Mail(b, p) == [])
    && (forall p {:trigger Out(b, p)} :: p !in ts ==> Out(b, p) == Nothing)
    && (forall p {:trigger Hand(b, p)} :: p !in ts ==> Hand(b, p) == Empty)
    && b.intr <= ts.Keys
  }

  lemma Mirrored(ts: Tasks, b: Box, p: int)
    requires Refines(ts, b) && p in ts
    ensures Mirrors(ts, b, p)
  {
  }

  /** The step is silent, or it is one legal event of the automaton. */
  ghost predicate Simulated(st: State, st': State, b: Box) {
    || (st'.log == st.log && Refines(st'.tasks, b))
    || (|st'.log| == |st.log| + 1 && st'.log[..|st.log|] == st.log
        && var v := Accept(b, st'.log[|st.log|]); v.Legal? && Refines(st'.tasks, v.box))
  }

  /** A change of one task that keeps its list, and its message while others refer to it. */
  lemma LocalMirror(ts: Tasks, b: Box, b': Box, p: int, u: Task)
    requires TasksOk(ts) && Refines(ts, b) && p in ts
    requires u.senders == ts[p].senders && (Open(ts[p]) ==> u.msg == ts[p].msg)
    requires b'.mail == b.mail && forall q :: q != p ==> Out(b', q) == Out(b, q)
    requires forall q :: q != p ==> Hand(b', q) == Hand(b, q)
    requires forall q :: q != p ==> (q in b'.intr <==> q in b.intr)
    requires Out(b', p) == OutOf(u) && Hand(b', p) == HandOf(ts[p := u], u) && (p in b'.intr <==> u.hasIntr)
    ensures Refines(ts[p := u], b')
  {
    var ts' := ts[p := u];
    forall q | q in ts
      ensures Mirrors(ts', b', q)
    {
      Mirrored(ts, b, q);
      assert SenderOk(ts, p) && ReceiverOk(ts, q) && QueueOk(ts, q);
    }
    assert forall q :: q !in ts' ==> q !in ts && q != p;
    assert forall q :: Mail(b', q) == Mail(b, q);
    assert b'.intr <= ts'.Keys;
  }

  /** The steps of one task that no event marks. */
  predicate SilentStep(step: Step) {
    step.BeginSend? || step.CountSend? || step.BlockSend? || step.BeginRecv? || step.SetFlag?
    || step.BlockRecv? || step.Resume? || step.StartCheck? || step.Unblock?
  }

  lemma SilentSimulates(st: State, step: Step, b: Box)
    requires Inv(st) && Enabled(st, step) && Refines(st.tasks, b) && SilentStep(step) && step.p in st.tasks
    ensures Simulated(st, Apply(st, step), b)
  {
    var ts, p := st.tasks, step.p;
    Known(ts, p);
    Mirrored(ts, b, p);
    var u := Apply(st, step).tasks[p];
    assert Apply(st, step).tasks == ts[p := u];
    LocalMirror(ts, b, b, p, u);
  }

  lemma ContinueCheckSimulates(st: State, p: int, b: Box)
    requires Inv(st) && p in st.tasks && Refines(st.tasks, b)
    ensures Simulated(st, DoCheck(st, p), b)
  {
    Mirrored(st.tasks, b, p);
    if DoCheck(st, p) != Fault(st) {
      LocalMirror(st.tasks, b, b, p, Checked(st.tasks[p]));
    }
  }

  lemma InterruptSimulates(st: State, p: int, b: Box)
    requires Inv(st) && p in st.tasks && Refines(st.tasks, b)
    ensures Simulated(st, DoInterrupt(st, p), b)
  {
    Mirrored(st.tasks, b, p);
    LocalMirror(st.tasks, b, Accept(b, Raise(p)).box, p, st.tasks[p].(hasIntr := true));
  }

  lemma EndSendSimulates(st: State, p: int, b: Box)
    requires Inv(st) && Enabled(st, EndSend(p)) && Refines(st.tasks, b)
    ensures Simulated(st, Apply(st, EndSend(p)), b)
  {
    Known(st.tasks, p);
    Mirrored(st.tasks, b, p);
    LocalMirror(st.tasks, b, Accept(b, Finish(p)).box, p, st.tasks[p].(phase := Idle, stage := NoMessage));
  }

  lemma ClearIntrSimulates(st: State, p: int, b: Box)
    requires Inv(st) && Enabled(st, ClearIntr(p)) && Refines(st.tasks, b)
    ensures Simulated(st, Apply(st, ClearIntr(p)), b)
  {
    Known(st.tasks, p);
    Mirrored(st.tasks, b, p);
    LocalMirror(st.tasks, b, Accept(b, Notify(p)).box, p, Apply(st, ClearIntr(p)).tasks[p]);
  }

  lemma EndRecvSimulates(st: State, p: int, b: Box)
    requires Inv(st) && Enabled(st, EndRecv(p)) && Refines(st.tasks, b)
    ensures Simulated(st, Apply(st, EndRecv(p)), b)
  {
    var m := st.tasks[p].phase.got;
    Known(st.tasks, p);
    Mirrored(st.tasks, b, p);
    LocalMirror(st.tasks, b, Accept(b, Deliver(p, m)).box, p, st.tasks[p].(phase := Idle));
  }

  lemma CreateSimulates(ts: Tasks, p: int, b: Box)
    requires TasksOk(ts) && p !in ts && Refines(ts, b)
    ensures Refines(ts[p := NewTask], b)
  {
    var ts' := ts[p := NewTask];
    forall q | q in ts'
      ensures Mirrors(ts', b, q)
    {
      if q != p {
        Mirrored(ts, b, q);
        Known(ts, q);
      }
    }
    assert forall q :: q !in ts' ==> q !in ts;
  }

  lemma ExitSimulates(st: State, p: int, b: Box)
    requires Inv(st) && p in st.tasks && Quiet(st, p) && Refines(st.tasks, b)
    ensures Accept(b, Leave(p)).Legal? && Refines(st.tasks - {p}, Accept(b, Leave(p)).box)
  {
    var ts, ts' := st.tasks, st.tasks - {p};
    Known(ts, p);
    Mirrored(ts, b, p);
    var b' := Accept(b, Leave(p)).box;
    forall q | q in ts'
      ensures Mirrors(ts', b', q)
    {
      Mirrored(ts, b, q);
      Known(ts, q);
    }
    assert forall q :: q !in ts' ==> q !in ts || q == p;
    assert forall q :: Mail(b', q) == Mail(b, q) && Out(b', q) == Out(b, q) && Hand(b', q) == Hand(b, q);
  }

  /** Mailboxes are read through the senders' messages only. */
  lemma MailFrame(ts: Tasks, ts': Tasks, q: seq<int>, mail: seq<Message>)
    requires MailMirrors(ts, q, mail)
    requires forall x :: x in ts ==> x in ts' && ts'[x].msg == ts[x].msg
    ensures MailMirrors(ts', q, mail)
  {
    forall i | 0 <= i < |q|
      ensures q[i] in ts' && mail[i] == ts'[q[i]].msg
    {
      var x := q[i];
      assert x in ts;
      assert x in ts';
    }
  }

  ghost predicate BoxFrame(b: Box, b': Box, p: int, s: int) {
    && b'.intr == b.intr
    && (forall q {:trigger Mail(b', q)} :: q != p && q != s ==> Mail(b', q) == Mail(b, q))
    && (forall q {:trigger Out(b', q)} :: q != p && q != s ==> Out(b', q) == Out(b, q))
    && (forall q {:trigger Hand(b', q)} :: q != p && q != s ==> Hand(b', q) == Hand(b, q))
  }

  /** A step that writes fields of p and of s, but no message. */
  lemma PairMirror(ts: Tasks, ts': Tasks, b: Box, b': Box, p: int, s: int)
    requires Refines(ts, b) && p in ts && s in ts && p in ts' && s in ts' && ts' == ts[p := ts'[p]][s := ts'[s]]
    requires ts'[p].msg == ts[p].msg && ts'[s].msg == ts[s].msg && BoxFrame(b, b', p, s)
    requires Mirrors(ts', b', p) && Mirrors(ts', b', s)
    ensures Refines(ts', b')
  {
    forall q | q in ts' && q != p && q != s
      ensures Mirrors(ts', b', q)
    {
      Mirrored(ts, b, q);
    }
    assert forall q :: q !in ts' ==> q !in ts && q != p && q != s;
  }

  lemma EnqueueMirrors(st: State, p: int, b: Box, q: int)
    requires p in st.tasks && st.tasks[p].phase == SendStart && SenderOk(st.tasks, p) && st.tasks[p].sendTo in st.tasks
    requires q == p || q == st.tasks[p].sendTo
    requires Mirrors(st.tasks, b, p) && Mirrors(st.tasks, b, q)
    ensures var d, m := st.tasks[p].sendTo, st.tasks[p].msg;
            Accept(b, Post(d, m)).Legal? && q in DoEnqueue(st, p).tasks &&
                Mirrors(DoEnqueue(st, p).tasks, Accept(b, Post(d, m)).box, q)
  {
    hide Accept, Mail, Out, Hand;
    PostEffect(b, st.tasks[p].sendTo, st.tasks[p].msg);
  }

  lemma EnqueueSimulates(st: State, p: int, b: Box)
    requires Inv(st) && p in st.tasks && st.tasks[p].phase == SendStart && Refines(st.tasks, b)
    ensures Simulated(st, DoEnqueue(st, p), b)
  {
    var ts, ts' := st.tasks, DoEnqueue(st, p).tasks;
    var d, m := ts[p].sendTo, ts[p].msg;
    Known(ts, p);
    Mirrored(ts, b, p);
    Mirrored(ts, b, d);
    EnqueueMirrors(st, p, b, p);
    EnqueueMirrors(st, p, b, d);
    PostEffect(b, d, m);
    hide Accept, Mail, Out, Hand, Mirrors;
    PairMirror(ts, ts', b, Accept(b, Post(d, m)).box, p, d);
  }

  lemma UnlinkSimulates(st: State, p: int, b: Box)
    requires Inv(st) && p in st.tasks && st.tasks[p].phase.RecvUnlink? && Refines(st.tasks, b)
    ensures Simulated(st, DoUnlink(st, p), b)
  {
    var ts, ts' := st.tasks, DoUnlink(st, p).tasks;
    var s := ts[p].phase.sender;
    Known(ts, p);
    Mirrored(ts, b, p);
    Mirrored(ts, b, s);
    assert Mirrors(ts', b, p) && Mirrors(ts', b, s);
    hide Mirrors;
    PairMirror(ts, ts', b, b, p, s);
  }

  lemma AcknowledgeSimulates(st: State, p: int, b: Box)
    requires Inv(st) && p in st.tasks && st.tasks[p].phase.RecvAck? && Refines(st.tasks, b)
    ensures Simulated(st, DoAcknowledge(st, p), b)
  {
    var ts, ts' := st.tasks, DoAcknowledge(st, p).tasks;
    var s := ts[p].phase.sender;
    Known(ts, p);
    Mirrored(ts, b, p);
    Mirrored(ts, b, s);
    assert Mirrors(ts', b, p) && Mirrors(ts', b, s);
    hide Mirrors;
    PairMirror(ts, ts', b, b, p, s);
  }

  lemma CopyOutMirrors(st: State, p: int, s: int, b: Box, q: int)
    requires p in st.tasks && s in st.tasks && st.tasks[p].phase.RecvCopy? && s == st.tasks[p].phase.sender
    requires SenderOk(st.tasks, s) && st.tasks[s].stage == Held(p)
    requires q == p || q == s
    requires Mirrors(st.tasks, b, p) && Mirrors(st.tasks, b, s)
    ensures var m := st.tasks[s].msg;
            Accept(b, Copy(p, m)).Legal? && q in DoCopyOut(st, p).tasks &&
                Mirrors(DoCopyOut(st, p).tasks, Accept(b, Copy(p, m)).box, q)
  {
    CopyEffect(b, p, st.tasks[s].msg);
    hide Accept, Mail, Out, Hand;
  }

  lemma CopyOutSimulates(st: State, p: int, b: Box)
    requires Inv(st) && p in st.tasks && st.tasks[p].phase.RecvCopy? && Refines(st.tasks, b)
    ensures Simulated(st, DoCopyOut(st, p), b)
  {
    var ts, ts' := st.tasks, DoCopyOut(st, p).tasks;
    Known(ts, p);
    var s := ts[p].phase.sender;
    var m := ts[s].msg;
    Known(ts, s);
    Mirrored(ts, b, p);
    Mirrored(ts, b, s);
    CopyOutMirrors(st, p, s, b, p);
    CopyOutMirrors(st, p, s, b, s);
    CopyEffect(b, p, m);
    hide Accept, Mail, Out, Hand, Mirrors;
    PairMirror(ts, ts', b, Accept(b, Copy(p, m)).box, p, s);
  }

  lemma {:induction false} WithoutAt(q: seq<int>, s: int, k: nat)
    requires k < |q| && q[k] == s && forall i :: 0 <= i < k ==> q[i] != s
    ensures Without(q, s) == q[..k] + q[k + 1..]
  {
    if k > 0 {
      WithoutAt(q[1..], s, k - 1);
      assert q[1..][..k - 1] == q[1..k] && q[1..][k..] == q[k + 1..];
      assert [q[0]] + q[1..k] == q[..k];
    }
  }

  /** Unlinking a sender from the list is removing its message from the mailbox. */
  lemma WithoutIsRemoveAt(ts: Tasks, q: seq<int>, mail: seq<Message>, s: int)
    requires MailMirrors(ts, q, mail) && s in q
    requires forall i :: 0 <= i < |q| ==> mail[i].src == q[i]
    ensures Find(mail, s) < |mail| && q[Find(mail, s)] == s
    ensures q[0] == s ==> Find(mail, s) == 0
    ensures MailMirrors(ts, Without(q, s), RemoveAt(mail, Find(mail, s)))
  {
    var k := Find(mail, s);
    var i :| 0 <= i < |q| && q[i] == s;
    assert mail[i].src == s;
    WithoutAt(q, s, k);
    var left, rest := Without(q, s), RemoveAt(mail, k);
    hide Without, Find;
    forall j | 0 <= j < |left|
      ensures left[j] in ts && rest[j] == ts[left[j]].msg
    {
      var j' := if j < k then j else j + 1;
      assert left[j] == q[j'] && rest[j] == mail[j'];
    }
  }

  /** The message that a dequeue takes is the one the automaton takes. */
  lemma NextIsFound(ts: Tasks, p: int, b: Box)
    requires TasksOk(ts) && p in ts && ts[p].phase.RecvDequeue? && Refines(ts, b)
    ensures ts[p].phase.src == RECV_FROM_ANY ==> ts[p].senders != []
    ensures var q, mail, s, want := ts[p].senders, Mail(b, p), NextSender(ts[p]), ts[p].phase.src;
            && s in q && s in ts
            && var k := if want == RECV_FROM_ANY then 0 else Find(mail, want);
            && k < |mail| && mail[k] == ts[s].msg && mail[k].src == s && Out(b, s) == Posted(p, mail[k])
            && MailMirrors(ts, Without(q, s), RemoveAt(mail, k))
  {
    Known(ts, p);
    var s := NextSender(ts[p]);
    Known(ts, s);
    Mirrored(ts, b, p);
    Mirrored(ts, b, s);
    forall i | 0 <= i < |ts[p].senders|
      ensures Mail(b, p)[i].src == ts[p].senders[i]
    {
      Known(ts, ts[p].senders[i]);
    }
    WithoutIsRemoveAt(ts, ts[p].senders, Mail(b, p), s);
  }

  lemma DequeueResult(st: State, p: int)
    requires Inv(st) && p in st.tasks && st.tasks[p].phase.RecvDequeue?
    ensures st.tasks[p].phase.src == RECV_FROM_ANY ==> st.tasks[p].senders != []
    ensures var ts, t, s := st.tasks, st.tasks[p], NextSender(st.tasks[p]);
            && s in ts && s in t.senders && s != p && t.stage == NoMessage && ts[s].stage == Queued && ts[s].sendTo == p
            && DoDequeue(st, p) == State(
                 ts[p := t.(phase := RecvCopy(t.phase.src, s), senders := Without(t.senders, s))]
                   [s := ts[s].(stage := Held(p))],
                 st.log + [Take(p, t.phase.src, s)], st.fault)
  {
    Known(st.tasks, p);
    Known(st.tasks, NextSender(st.tasks[p]));
  }

  /** The automaton accepts the dequeue, and the two mailboxes concerned stay mirrored. */
  lemma DequeueLegal(st: State, p: int, b: Box)
    requires Inv(st) && p in st.tasks && st.tasks[p].phase.RecvDequeue? && Refines(st.tasks, b)
    ensures st.tasks[p].phase.src == RECV_FROM_ANY ==> st.tasks[p].senders != []
    ensures var ts, s, ts' := st.tasks, NextSender(st.tasks[p]), DoDequeue(st, p).tasks;
            var v := Accept(b, Take(p, st.tasks[p].phase.src, s));
            && v.Legal? && BoxFrame(b, v.box, p, s) && s in ts && p in ts'
            && MailMirrors(ts', ts'[p].senders, Mail(v.box, p)) && MailMirrors(ts', ts[s].senders, Mail(v.box, s))
            && Out(v.box, s) == Taken(p, ts[s].msg) && Out(v.box, p) == Out(b, p)
            && Hand(v.box, p) == Holding(ts[s].msg) && Hand(v.box, s) == Hand(b, s)
  {
    hide DoDequeue, Accept, Without, Find, RemoveAt;
    NextIsFound(st.tasks, p, b);
    DequeueResult(st, p);
    var ts, ts' := st.tasks, DoDequeue(st, p).tasks;
    var s, want := NextSender(ts[p]), ts[p].phase.src;
    var k := if want == RECV_FROM_ANY then 0 else Find(Mail(b, p), want);
    Mirrored(ts, b, p);
    Mirrored(ts, b, s);
    TakeEffect(b, p, want, k);
    MailFrame(ts, ts', Without(ts[p].senders, s), RemoveAt(Mail(b, p), k));
    MailFrame(ts, ts', ts[s].senders, Mail(b, s));
    hide Mail, Out, Hand, MailMirrors;
  }

  lemma DequeueMirrors(st: State, p: int, b: Box)
    requires Inv(st) && p in st.tasks && st.tasks[p].phase.RecvDequeue? && Refines(st.tasks, b)
    ensures st.tasks[p].phase.src == RECV_FROM_ANY ==> st.tasks[p].senders != []
    ensures var s, ts' := NextSender(st.tasks[p]), DoDequeue(st, p).tasks;
            var v := Accept(b, Take(p, st.tasks[p].phase.src, s));
            v.Legal? && BoxFrame(b, v.box, p, s) && p in ts' && s in ts' && Mirrors(ts', v.box, p) &&
                Mirrors(ts', v.box, s)
  {
    DequeueLegal(st, p, b);
    DequeueResult(st, p);
    Mirrored(st.tasks, b, p);
    Mirrored(st.tasks, b, NextSender(st.tasks[p]));
    hide Accept, Mail, Out, Hand, Without, MailMirrors, DoDequeue;
  }

  lemma DequeueSimulates(st: State, p: int, b: Box)
    requires Inv(st) && p in st.tasks && st.tasks[p].phase.RecvDequeue? && Refines(st.tasks, b)
    ensures Simulated(st, DoDequeue(st, p), b)
  {
    DequeueMirrors(st, p, b);
    DequeueResult(st, p);
    hide Accept, Mirrors, BoxFrame, DoDequeue;
    var ts, s := st.tasks, NextSender(st.tasks[p]);
    PairMirror(ts, DoDequeue(st, p).tasks, b, Accept(b, Take(p, ts[p].phase.src, s)).box, p, s);
  }

  lemma StepSimulates(st: State, step: Step, b: Box)
    requires Inv(st) && Enabled(st, step) && Refines(st.tasks, b)
    ensures Simulated(st, Apply(st, step), b)
  {
    match step
    case Create(p) => CreateSimulates(st.tasks, p, b);
    case Exit(p) => ExitSimulates(st, p, b);
    case Interrupt(p) => if p in st.tasks { InterruptSimulates(st, p, b); }
    case Enqueue(p) => EnqueueSimulates(st, p, b);
    case EndSend(p) => EndSendSimulates(st, p, b);
    case ClearIntr(p) => ClearIntrSimulates(st, p, b);
    case Dequeue(p) => DequeueSimulates(st, p, b);
    case CopyOut(p) => CopyOutSimulates(st, p, b);
    case Unlink(p) => UnlinkSimulates(st, p, b);
    case Acknowledge(p) => AcknowledgeSimulates(st, p, b);
    case EndRecv(p) => EndRecvSimulates(st, p, b);
    case ContinueCheck(p) => ContinueCheckSimulates(st, p, b);
    case _ => SilentSimulates(st, step, b);
  }

  // ---------------------------------------------------------------- main results

  /**
   Every interleaving: a run never follows a bad pointer, keeps the protocol invariant, and its log
   is one the mailbox automaton accepts, with the automaton ending in the mirrored state.
   */
  lemma {:induction false} RunsRefineMailbox(steps: seq<Step>)
    requires Exec(steps).Reached?
    ensures var st := Exec(steps).st;
            Inv(st) && Judge(st.log).Legal? && Refines(st.tasks, Judge(st.log).box)
  {
    if steps != [] {
      var before, step := steps[..|steps| - 1], steps[|steps| - 1];
      RunsRefineMailbox(before);
      var st := Exec(before).st;
      StepKeepsInv(st, step);
      StepSimulates(st, step, Judge(st.log).box);
      hide Accept, Enabled, Apply;
    }
  }

  /** What s has handed to msg_send so far, with an existing destination: the message as it is sent. */
  function Begins(steps: seq<Step>, s: int): seq<(int, Message)> {
    if steps == [] then []
    else Begins(steps[..|steps| - 1], s) + BeginOf(Exec(steps[..|steps| - 1]), steps[|steps| - 1], s)
  }

  function BeginOf(before: Outcome, step: Step, s: int): seq<(int, Message)> {
    if before.Reached? && step.BeginSend? && step.p == s && step.dst in before.st.tasks
    then [(step.dst, step.m.(src := s))] else []
  }

  /** The message that s is about to post. */
  function Pending(st: State, s: int): seq<(int, Message)> {
    if s in st.tasks && st.tasks[s].phase == SendStart then [(st.tasks[s].sendTo, st.tasks[s].msg)] else []
  }

  /**
   Of the steps that neither begin a send nor post, the one that writes a sender's destination comes after the post.
   */
  lemma UnlinkPending(st: State, p: int, s: int)
    requires Inv(st) && Enabled(st, Unlink(p))
    ensures Pending(Apply(st, Unlink(p)), s) == Pending(st, s)
  {
    Known(st.tasks, p);
    Known(st.tasks, st.tasks[p].phase.sender);
    hide Inv, QueueOk;
  }

  lemma OwnPending(st: State, step: Step)
    requires Inv(st) && Enabled(st, step) && !step.BeginSend? && !step.Enqueue? && !step.Unlink?
    ensures Pending(Apply(st, step), step.p) == Pending(st, step.p)
  {
    if step.Unblock? {
      Known(st.tasks, step.p);
    }
    hide Inv, SenderOk, QueueOk;
    hide Without, Checked;
    CheckedIs(if step.p in st.tasks then st.tasks[step.p] else NewTask);
  }

  lemma CheckedIs(t: Task)
    ensures Checked(t).phase == t.phase && Checked(t).sendTo == t.sendTo && Checked(t).msg == t.msg
  {
  }

  lemma OthersPending(st: State, step: Step, s: int)
    requires Enabled(st, step) && !step.BeginSend? && !step.Enqueue? && !step.Unlink? && s != step.p
    ensures Pending(Apply(st, step), s) == Pending(st, s)
  {
    hide Without, Checked, Quiet;
  }

  /** The steps that neither begin a send nor post. */
  lemma QuietPending(st: State, step: Step, s: int)
    requires Inv(st) && Enabled(st, step) && !step.BeginSend? && !step.Enqueue?
    ensures Pending(Apply(st, step), s) == Pending(st, s)
  {
    hide Inv, Pending, Enabled, Apply;
    if step.Unlink? {
      UnlinkPending(st, step.p, s);
    } else if step.p == s {
      OwnPending(st, step);
    } else {
      OthersPending(st, step, s);
    }
  }

  lemma QuietPosts(st: State, step: Step, s: int)
    requires Enabled(st, step) && !step.Enqueue?
    ensures Posts(Apply(st, step).log, s) == Posts(st.log, s)
  {
    hide Posts;
    var log := Apply(st, step).log;
    if log != st.log {
      var e := log[|st.log|];
      assert log == st.log + [e] && !e.Post?;
      AccountAppend(st.log, e, s);
    }
  }

  lemma SendStartKnown(st: State, p: int)
    requires Inv(st) && p in st.tasks && st.tasks[p].phase == SendStart
    ensures st.tasks[p].sendTo in st.tasks && st.tasks[p].msg.src == p
  {
    Known(st.tasks, p);
  }

  lemma EnqueueEffect(st: State, p: int, s: int)
    requires Enabled(st, Enqueue(p)) && st.tasks[p].sendTo in st.tasks
    ensures Apply(st, Enqueue(p)).log == st.log + [Post(st.tasks[p].sendTo, st.tasks[p].msg)]
    ensures Pending(st, p) == [(st.tasks[p].sendTo, st.tasks[p].msg)]
    ensures Pending(Apply(st, Enqueue(p)), s) == if s == p then [] else Pending(st, s)
  {
  }

  lemma EnqueuePosts(st: State, p: int, s: int)
    requires Inv(st) && Enabled(st, Enqueue(p))
    ensures Posts(Apply(st, Enqueue(p)).log, s) + Pending(Apply(st, Enqueue(p)), s) == Posts(st.log, s) + Pending(st, s)
  {
    hide Inv, Posts, Pending, Apply;
    SendStartKnown(st, p);
    EnqueueEffect(st, p, s);
    AccountAppend(st.log, Post(st.tasks[p].sendTo, st.tasks[p].msg), s);
  }

  lemma StepPosts(st: State, step: Step, s: int)
    requires Inv(st) && Enabled(st, step)
    ensures Posts(Apply(st, step).log, s) + Pending(Apply(st, step), s)
         == Posts(st.log, s) + Pending(st, s) + BeginOf(Reached(st), step, s)
  {
    hide Inv, Posts;
    if step.Enqueue? {
      EnqueuePosts(st, step.p, s);
    } else {
      QuietPosts(st, step, s);
      if !step.BeginSend? {
        QuietPending(st, step, s);
        hide Pending, Enabled, Apply;
      }
    }
  }

  /** What is posted is what msg_send was called with, in order; at most the last call is still to post. */
  lemma {:induction false} PostsAreBegins(steps: seq<Step>, s: int)
    requires Exec(steps).Reached?
    ensures Posts(Exec(steps).st.log, s) + Pending(Exec(steps).st, s) == Begins(steps, s)
  {
    if steps != [] {
      var before, step := steps[..|steps| - 1], steps[|steps| - 1];
      PostsAreBegins(before, s);
      RunsRefineMailbox(before);
      hide Inv, Enabled, Apply, Posts, Pending, BeginOf;
      StepPosts(Exec(before).st, step, s);
      assert BeginOf(Exec(before), step, s) == BeginOf(Reached(Exec(before).st), step, s);
    }
  }

  /**
   In every run, each completed send of s pairs with exactly one receive: the k-th message that s handed to
   msg_send was copied at position at[k] of the log, by the task it was sent to, and is the message of that
   copy's rank among all that the receiver copied; msg_recv returns them to the receiver in that order, each once.
   Different sends have different positions, and copies at different positions have different ranks.
   */
  lemma EverySendPairsWithOneReceive(steps: seq<Step>, s: int) returns (at: seq<nat>)
    requires Exec(steps).Reached?
    ensures var log := Exec(steps).st.log;
            && |at| == |Copies(log, s)| && Finishes(log, s) <= |at| <= |Posts(log, s)| <= Finishes(log, s) + 1
            && |Posts(log, s)| <= |Begins(steps, s)|
            && (forall i, j :: 0 <= i < j < |at| ==> at[i] < at[j])
            && (forall k :: 0 <= k < |at| ==>
                  && at[k] < |log| && log[at[k]].Copy?
                  && var (d, m) := Begins(steps, s)[k];
                     log[at[k]] == Copy(d, m) && m.src == s
                     && Rank(log, at[k]) < |CopiesTo(log, d)| && CopiesTo(log, d)[Rank(log, at[k])] == m)
            && (forall d :: Deliveries(log, d) <= CopiesTo(log, d) && |CopiesTo(log, d)| <= |Deliveries(log, d)| + 1)
            && forall i, j {:trigger log[i].dst, log[j].dst} ::
                 0 <= i < j < |log| && log[i].Copy? && log[j].Copy? && log[i].dst == log[j].dst ==>
                     Rank(log, i) != Rank(log, j)
  {
    var log := Exec(steps).st.log;
    RunsRefineMailbox(steps);
    PostsAreBegins(steps, s);
    SendsPairWithCopies(log, s);
    at := MatchCopies(log, s);
    hide Posts, Copies, Begins, Pending, Judge, Finishes, Deliveries, CopiesTo, Exec, Rank;
    forall i | 0 <= i < |log| && log[i].Copy?
      ensures var d := log[i].dst; Rank(log, i) < |CopiesTo(log, d)| && CopiesTo(log, d)[Rank(log, i)] == log[i].m
      ensures forall j :: 0 <= j < |log| && j != i && log[j].Copy? && log[j].dst == log[i].dst ==>
              Rank(log, j) != Rank(log, i)
    {
      RankIs(log, i);
    }
    forall d
      ensures Deliveries(log, d) <= CopiesTo(log, d) && |CopiesTo(log, d)| <= |Deliveries(log, d)| + 1
    {
      CopiesPairWithReturns(log, d);
    }
  }

  /** A dequeue under RECV_FROM_ANY takes the oldest message that was posted and not taken yet. */
  lemma ReceiversServeInOrder(steps: seq<Step>, p: int)
    requires Exec(steps).Reached? && Enabled(Exec(steps).st, Dequeue(p))
    requires Exec(steps).st.tasks[p].phase.src == RECV_FROM_ANY
    ensures var st := Exec(steps).st;
            st.tasks[p].senders != []
            && exists i: nat ::
              && PostTo(st.log, i, p) && st.log[i].m.src == st.tasks[p].senders[0] && !TakenSince(st.log, i)
              && forall j: nat {:trigger PostTo(st.log, j, p)} :: PostTo(st.log, j, p) && j < i ==>
                  TakenSince(st.log, j)
  {
    var st := Exec(steps).st;
    RunsRefineMailbox(steps);
    DequeueMirrors(st, p, Judge(st.log).box);
    JudgeAppend(st.log, Take(p, RECV_FROM_ANY, st.tasks[p].senders[0]));
    FirstComeFirstServed(st.log, p, st.tasks[p].senders[0]);
  }

  /** send_flag, read as the signed value the source compares, never leaves -1, 0, 1. */
  lemma SendFlagBounded(steps: seq<Step>, p: int)
    requires Exec(steps).Reached? && p in Exec(steps).st.tasks
    ensures var t := Exec(steps).st.tasks[p];
            && -1 <= Words.Signed(t.sendFlag) <= 1
            && (Words.Signed(t.sendFlag) == -1 <==> t.phase.SendQueued? && t.stage.Acked?)
            && (t.phase.SendWait? ==> (Words.Signed(t.sendFlag) > 0 <==> !t.stage.Acked?))
  {
    RunsRefineMailbox(steps);
    Known(Exec(steps).st.tasks, p);
  }

  /**
   Wake-ups are stable: from the moment the poll lets a receiver go until it takes its message, what
   it waits for is there, whatever the other tasks, the poll and interrupts do in between.
   */
  lemma WakeUpIsStable(steps: seq<Step>, p: int)
    requires Exec(steps).Reached? && p in Exec(steps).st.tasks
    ensures var t := Exec(steps).st.tasks[p];
            && (t.phase.RecvWait? && t.check == Passed ==> CanReceive(t, t.phase.src))
            && (t.phase.RecvReady? ==> CanReceive(t, t.phase.src))
            && (t.phase.RecvDequeue? ==>
                  if t.phase.src == RECV_FROM_ANY then t.senders != [] else t.phase.src in t.senders)
            && (t.phase.SendReady? ==> t.stage == Acked)
  {
    RunsRefineMailbox(steps);
    Known(Exec(steps).st.tasks, p);
  }
}
