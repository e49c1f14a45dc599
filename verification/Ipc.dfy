/**
 The message-passing protocol of the kernel, as a step system.

 Every step below is one atomic action of the source: one critical section of `send_lock`, one
 atomic operation, or a stretch of code that touches only the acting task's own fields. Steps of
 different tasks, of the scheduler that polls the waiting tasks, and of interrupt handlers
 interleave freely.
 */
module Ipc {
  import opened Constants
  import opened Sequences
  import opened Words
  import opened Mailbox

  const RECV_FROM_INT: int := -2

  /** How far the delivery of a sender's current message has come. It is not stored by the kernel. */
  datatype Stage =
    | NoMessage
    | Queued            // in the destination's sender_list
    | Held(taker: int)   // popped, not copied yet
    | Copied(taker: int) // copied out, not acknowledged yet
    | Acked             // send_flag has been decremented

  /** The program counter of a task inside msg_send and msg_recv. */
  datatype Phase =
    | Idle
    | SendStart                 // send_to and msg are filled in
    | SendQueued                // in the receiver's sender_list
    | SendCounted               // send_flag incremented
    | SendWait                  // TASK_SENDING, on the waiting list
    | SendReady                 // taken off the waiting list again
    | RecvStart(src: int)
    | RecvFlagged(src: int)     // recv_flag is 1
    | RecvWait(src: int)        // TASK_RECEIVING, on the waiting list
    | RecvReady(src: int)       // taken off the waiting list again
    | RecvIntr(src: int)        // has read has_intr_msg as set
    | RecvDequeue(src: int)     // has to take a sender off the list
    | RecvCopy(src: int, sender: int)
    | RecvUnlink(sender: int, got: Message)
    | RecvAck(sender: int, got: Message)
    | RecvDone(got: Message)

  /** The progress of task_ipc_check for a waiting task. */
  datatype Check =
    | NoCheck
    | ReadIntr | ReadQueue | ReadSource | FindSource | ClearFlag  // recv_flag was 1
    | ReadSendFlag                                                // recv_flag was not 1
    | Passed                                                      // returned TRUE

  datatype Task = Task(
    phase: Phase, check: Check, stage: Stage,
    msg: Message, sendTo: int, recvFrom: int,
    sendFlag: Word, recvFlag: bool, hasIntr: bool,
    senders: seq<int>)

  const NewTask: Task :=
    Task(Idle, NoCheck, NoMessage, Message(0, 0, []), PID_NO_TASK, PID_NO_TASK, 0, false, false, [])

  type Tasks = map<int, Task>

  /** `fault` records a step that would follow a null, stale or foreign pointer. */
  datatype State = State(tasks: Tasks, log: seq<Event>, fault: bool)

  const Boot: State := State(map[], [], false)

  datatype Step =
    | Create(p: int) | Exit(p: int) | Interrupt(p: int)
    | BeginSend(p: int, dst: int, m: Message)
    | Enqueue(p: int) | CountSend(p: int) | BlockSend(p: int) | EndSend(p: int)
    | BeginRecv(p: int, src: int)
    | SetFlag(p: int) | BlockRecv(p: int) | Resume(p: int) | ClearIntr(p: int) | Dequeue(p: int)
    | CopyOut(p: int) | Unlink(p: int) | Acknowledge(p: int) | EndRecv(p: int)
    | StartCheck(p: int) | ContinueCheck(p: int) | Unblock(p: int)

  // ---------------------------------------------------------------- the steps

  function Set(st: State, p: int, t: Task): State {
    st.(tasks := st.tasks[p := t])
  }

  function Fault(st: State): State {
    st.(fault := true)
  }

  function Say(st: State, e: Event): State {
    st.(log := st.log + [e])
  }

  /** A specific source is one that names a task. */
  predicate Specific(src: int) {
    0 <= src < TASKS
  }

  /** No pending message involves p: the assumption the source makes about an exiting task. */
  predicate Quiet(st: State, p: int)
    requires p in st.tasks
  {
    && st.tasks[p].phase == Idle && st.tasks[p].senders == []
    && forall q :: q in st.tasks ==> st.tasks[q].sendTo != p && st.tasks[q].recvFrom != p
  }

  /** When a step can be taken: only its place in the program counts, never the shared data. */
  predicate Enabled(st: State, step: Step) {
    if step.Create? then step.p !in st.tasks && 0 <= step.p < TASKS
    else if step.Interrupt? then true
    else if step.p !in st.tasks then false
    else
      var t := st.tasks[step.p];
      match step
      case Exit(p) => Quiet(st, p)
      case BeginSend(_, _, _) => t.phase == Idle
      case BeginRecv(_, _) => t.phase == Idle
      case Enqueue(_) => t.phase == SendStart
      case CountSend(_) => t.phase == SendQueued
      case BlockSend(_) => t.phase == SendCounted
      case EndSend(_) => t.phase == SendReady
      case SetFlag(_) => t.phase.RecvStart?
      case BlockRecv(_) => t.phase.RecvFlagged?
      case Resume(_) => t.phase.RecvReady?
      case ClearIntr(_) => t.phase.RecvIntr?
      case Dequeue(_) => t.phase.RecvDequeue?
      case CopyOut(_) => t.phase.RecvCopy?
      case Unlink(_) => t.phase.RecvUnlink?
      case Acknowledge(_) => t.phase.RecvAck?
      case EndRecv(_) => t.phase.RecvDone?
      case StartCheck(_) => (t.phase.SendWait? || t.phase.RecvWait?) && t.check == NoCheck
      case ContinueCheck(_) => t.check != NoCheck && t.check != Passed
      case Unblock(_) => t.check == Passed
      case _ => false
  }

  function Apply(st: State, step: Step): State
    requires Enabled(st, step)
  {
    match step
    case Create(p) => Set(st, p, NewTask)
    case Exit(p) => Say(st.(tasks := st.tasks - {p}), Leave(p))
    case Interrupt(p) => DoInterrupt(st, p)
    case BeginSend(p, dst, m) => DoBeginSend(st, p, dst, m)
    case Enqueue(p) => DoEnqueue(st, p)
    case CountSend(p) =>
      var t := st.tasks[p];
      Set(st, p, t.(phase := SendCounted, sendFlag := Wrap(t.sendFlag + 1)))
    case BlockSend(p) => Set(st, p, st.tasks[p].(phase := SendWait))
    case EndSend(p) => Say(Set(st, p, st.tasks[p].(phase := Idle, stage := NoMessage)), Finish(p))
    case BeginRecv(p, src) => DoBeginRecv(st, p, src)
    case SetFlag(p) =>
      var t := st.tasks[p];
      Set(st, p, t.(phase := RecvFlagged(t.phase.src), recvFlag := true))
    case BlockRecv(p) => Set(st, p, st.tasks[p].(phase := RecvWait(st.tasks[p].phase.src)))
    case Resume(p) => DoResume(st, p)
    case ClearIntr(p) =>
      Say(Set(st, p, st.tasks[p].(phase := Idle, recvFrom := PID_NO_TASK, hasIntr := false)), Notify(p))
    case Dequeue(p) => DoDequeue(st, p)
    case CopyOut(p) => DoCopyOut(st, p)
    case Unlink(p) => DoUnlink(st, p)
    case Acknowledge(p) => DoAcknowledge(st, p)
    case EndRecv(p) => Say(Set(st, p, st.tasks[p].(phase := Idle)), Deliver(p, st.tasks[p].phase.got))
    case StartCheck(p) =>
      Set(st, p, st.tasks[p].(check := if st.tasks[p].recvFlag then ReadIntr else ReadSendFlag))
    case ContinueCheck(p) => DoCheck(st, p)
    case Unblock(p) =>
      var t := st.tasks[p];
      var ready := if t.phase.RecvWait? then RecvReady(t.phase.src) else SendReady;
      Set(st, p, t.(phase := ready, check := NoCheck))
  }

  /** inform_intr; a destination that does not exist is ignored. */
  function DoInterrupt(st: State, p: int): State {
    if p !in st.tasks then st
    else Say(Set(st, p, st.tasks[p].(hasIntr := true)), Raise(p))
  }

  /** msg_send up to the call of wait_receviced. */
  function DoBeginSend(st: State, p: int, dst: int, m: Message): State
    requires p in st.tasks
  {
    var t := st.tasks[p];
    if dst !in st.tasks then Set(st, p, t.(sendTo := PID_NO_TASK))  // SYSCALL_DEST_NOT_EXIST
    else Set(st, p, t.(phase := SendStart, sendTo := dst, msg := m.(src := p)))
  }

  /** The critical section of wait_receviced. */
  function DoEnqueue(st: State, p: int): State
    requires p in st.tasks
  {
    var t := st.tasks[p];
    if t.sendTo !in st.tasks then Fault(st)
    else
      var st1 := Set(st, p, t.(phase := SendQueued, stage := Queued));
      var r := st1.tasks[t.sendTo];
      Say(Set(st1, t.sendTo, r.(senders := r.senders + [p])), Post(t.sendTo, t.msg))
  }

  /** msg_recv up to the point where recv_flag is set. */
  function DoBeginRecv(st: State, p: int, src: int): State
    requires p in st.tasks
  {
    var t := st.tasks[p];
    if src != RECV_FROM_ANY && src != RECV_FROM_INT && src !in st.tasks
    then Set(st, p, t.(recvFrom := PID_NO_TASK))  // SYSCALL_SRC_NOT_EXIST
    else Set(st, p, t.(phase := RecvStart(src), recvFrom := src))
  }

  /** msg_recv after task_block has returned: the choice of the source. */
  function DoResume(st: State, p: int): State
    requires p in st.tasks && st.tasks[p].phase.RecvReady?
  {
    var t := st.tasks[p];
    var src := t.phase.src;
    var next := if (src == RECV_FROM_ANY || src == RECV_FROM_INT) && t.hasIntr then RecvIntr(src) else RecvDequeue(src);
    Set(st, p, t.(phase := next))
  }

  /** The sequence without its first occurrence of x. */
  function Without(s: seq<int>, x: int): (r: seq<int>)
    requires x in s
    ensures |r| == |s| - 1
  {
    if s[0] == x then s[1..] else [s[0]] + Without(s[1..], x)
  }

  /** list_pop, or list_remove of the named sender. */
  function DoDequeue(st: State, p: int): State
    requires p in st.tasks && st.tasks[p].phase.RecvDequeue?
  {
    var t := st.tasks[p];
    var src := t.phase.src;
    var any := src == RECV_FROM_ANY || src == RECV_FROM_INT;
    if any && t.senders == [] then Fault(st)                            // pops the tail sentinel
    else
      var s := if any then t.senders[0] else src;
      if s !in st.tasks || s !in t.senders then Fault(st)               // unlinks a foreign node
      else
        var st1 := Set(st, p, t.(phase := RecvCopy(src, s), senders := Without(t.senders, s)));
        Say(Set(st1, s, st1.tasks[s].(stage := Held(p))), Take(p, src, s))
  }

  function DoCopyOut(st: State, p: int): State
    requires p in st.tasks && st.tasks[p].phase.RecvCopy?
  {
    var t := st.tasks[p];
    var s := t.phase.sender;
    if s !in st.tasks then Fault(st)
    else
      var m := st.tasks[s].msg;
      var st1 := Set(st, p, t.(phase := RecvUnlink(s, m), recvFrom := PID_NO_TASK));
      Say(Set(st1, s, st1.tasks[s].(stage := Copied(p))), Copy(p, m))
  }

  /** inform_received, first half. */
  function DoUnlink(st: State, p: int): State
    requires p in st.tasks && st.tasks[p].phase.RecvUnlink?
  {
    var t := st.tasks[p];
    var s := t.phase.sender;
    if s !in st.tasks then Fault(st)
    else
      var st1 := Set(st, p, t.(phase := RecvAck(s, t.phase.got)));
      Set(st1, s, st1.tasks[s].(sendTo := PID_NO_TASK))
  }

  /** inform_received, second half. */
  function DoAcknowledge(st: State, p: int): State
    requires p in st.tasks && st.tasks[p].phase.RecvAck?
  {
    var t := st.tasks[p];
    var s := t.phase.sender;
    if s !in st.tasks then Fault(st)
    else
      var st1 := Set(st, p, t.(phase := RecvDone(t.phase.got)));
      var u := st1.tasks[s];
      Set(st1, s, u.(stage := Acked, sendFlag := Wrap(u.sendFlag - 1)))
  }

  /** The reads of task_ipc_check, one per step, on a task's own fields. */
  function Checked(t: Task): Task {
    match t.check
    case ReadIntr => t.(check := if t.hasIntr then ReadSource else ReadQueue)
    case ReadQueue => t.(check := if t.senders == [] then NoCheck else ReadSource)
    case ReadSource =>
      t.(check := if t.recvFrom == RECV_FROM_INT then (if t.hasIntr then ClearFlag else NoCheck)
                  else if Specific(t.recvFrom) then FindSource
                  else ClearFlag)
    case FindSource => t.(check := if t.recvFrom in t.senders then ClearFlag else NoCheck)
    case ClearFlag => t.(check := Passed, recvFlag := false)
    case ReadSendFlag => t.(check := if Signed(t.sendFlag) > 0 then NoCheck else Passed)
    case _ => t
  }

  function DoCheck(st: State, p: int): State
    requires p in st.tasks
  {
    var t := st.tasks[p];
    if t.check == FindSource && t.recvFrom !in st.tasks then Fault(st) else Set(st, p, Checked(t))
  }

  // ---------------------------------------------------------------- runs

  datatype Outcome = Stuck | Reached(st: State)

  /** The state after a sequence of steps, provided each was enabled when taken. */
  function Exec(steps: seq<Step>): Outcome {
    if steps == [] then Reached(Boot)
    else
      var before := Exec(steps[..|steps| - 1]);
      var step := steps[|steps| - 1];
      if before.Reached? && Enabled(before.st, step) then Reached(Apply(before.st, step)) else Stuck
  }

  // ---------------------------------------------------------------- invariant

  predicate Sending(ph: Phase) {
    ph.SendQueued? || ph.SendCounted? || ph.SendWait? || ph.SendReady?
  }

  /** The message of this task is on its way. */
  predicate Open(t: Task) {
    t.stage.Queued? || t.stage.Held? || t.stage.Copied?
  }

  predicate Holding(ph: Phase) {
    ph.RecvCopy? || ph.RecvUnlink? || ph.RecvAck?
  }

  predicate HasSource(ph: Phase) {
    ph.RecvStart? || ph.RecvFlagged? || ph.RecvWait? || ph.RecvReady? || ph.RecvIntr? || ph.RecvDequeue? || ph.RecvCopy?
  }

  /** send_flag is the number of increments (0 or 1) less the number of acknowledgements (0 or 1). */
  function Balance(t: Task): int {
    (if t.phase.SendCounted? || t.phase.SendWait? || t.phase.SendReady? then 1 else 0)
    - (if t.stage == Acked then 1 else 0)
  }

  /** What a receiver waits for. */
  predicate CanReceive(t: Task, src: int) {
    if src == RECV_FROM_INT then t.hasIntr
    else if src == RECV_FROM_ANY then t.hasIntr || t.senders != []
    else src in t.senders
  }

  /** What the poll of a receiver has established so far. */
  predicate CheckOk(t: Task, src: int) {
    && t.check != ReadSendFlag
    && (t.recvFlag <==> t.check != Passed)
    && (t.check == ReadSource ==> t.hasIntr || t.senders != [])
    && (t.check == FindSource ==> Specific(src))
    && (t.check == ClearFlag || t.check == Passed ==> CanReceive(t, src))
  }

  predicate ValidSource(ts: Tasks, src: int) {
    src == RECV_FROM_ANY || src == RECV_FROM_INT || src in ts
  }

  /** The sender side of one task. */
  predicate SenderOk(ts: Tasks, p: int)
    requires p in ts
  {
    var t := ts[p];
    && (t.stage == NoMessage <==> !Sending(t.phase))
    && Signed(t.sendFlag) == Balance(t)
    && (t.sendTo != PID_NO_TASK ==> t.sendTo in ts && (Open(t) || t.phase == SendStart))
    && (t.phase.SendReady? ==> t.stage == Acked)
    && (t.phase.SendWait? ==> t.check in {NoCheck, ReadSendFlag, Passed} && (t.check == Passed ==> t.stage == Acked))
    && (t.phase.SendStart? ==> t.sendTo in ts)
    && (t.phase.SendStart? || Sending(t.phase) ==> t.msg.src == p)
    && (t.stage.Queued? ==> t.sendTo in ts && p in ts[t.sendTo].senders)
    && (t.stage.Held? || t.stage.Copied? ==>
          t.stage.taker in ts && Holding(ts[t.stage.taker].phase) && ts[t.stage.taker].phase.sender == p
          && (t.stage.Held? <==> ts[t.stage.taker].phase.RecvCopy?))
  }

  /** The receiver side of one task. */
  predicate ReceiverOk(ts: Tasks, p: int)
    requires p in ts
  {
    var t := ts[p];
    && (t.recvFlag ==> t.phase.RecvFlagged? || t.phase.RecvWait?)
    && (!t.phase.RecvWait? && !t.phase.SendWait? ==> t.check == NoCheck)
    && (HasSource(t.phase) ==> ValidSource(ts, t.phase.src) && t.recvFrom == t.phase.src)
    && (!HasSource(t.phase) ==> t.recvFrom == PID_NO_TASK)
    && (t.phase.RecvFlagged? ==> t.recvFlag)
    && (t.phase.RecvWait? ==> CheckOk(t, t.phase.src))
    && (t.phase.RecvReady? ==> CanReceive(t, t.phase.src))
    && (t.phase.RecvIntr? ==> t.hasIntr)
    && (t.phase.RecvDequeue? ==>
          if t.phase.src == RECV_FROM_ANY then t.senders != [] else t.phase.src in t.senders)
    && (t.phase.RecvCopy? ==> t.phase.src == RECV_FROM_ANY || t.phase.src == t.phase.sender)
    && (Holding(t.phase) ==>
          t.phase.sender in ts && ts[t.phase.sender].stage == if t.phase.RecvCopy? then Held(p) else Copied(p))
    && (t.phase.RecvUnlink? || t.phase.RecvAck? ==> t.phase.got == ts[t.phase.sender].msg)
    && (t.phase.RecvAck? ==> ts[t.phase.sender].sendTo == PID_NO_TASK)
  }

  /** Everybody in a sender_list is waiting for exactly that receiver. */
  ghost predicate QueueOk(ts: Tasks, p: int)
    requires p in ts
  {
    var q := ts[p].senders;
    && Distinct(q)
    && forall s :: s in q ==> s in ts && ts[s].stage == Queued && ts[s].sendTo == p
  }

  ghost predicate TasksOk(ts: Tasks) {
    && (forall p :: p in ts ==> 0 <= p < TASKS)
    && (forall p {:trigger SenderOk(ts, p)} :: p in ts ==> SenderOk(ts, p))
    && (forall p {:trigger ReceiverOk(ts, p)} :: p in ts ==> ReceiverOk(ts, p))
    && (forall p {:trigger QueueOk(ts, p)} :: p in ts ==> QueueOk(ts, p))
  }

  ghost predicate Inv(st: State) {
    !st.fault && TasksOk(st.tasks)
  }

  lemma {:induction false} WithoutKeeps(s: seq<int>, x: int)
    requires x in s && Distinct(s)
    ensures Distinct(Without(s, x))
    ensures forall y :: y in Without(s, x) <==> y in s && y != x
  {
    if s[0] == x {
      assert s == [x] + s[1..];
    } else {
      WithoutKeeps(s[1..], x);
      assert s == [s[0]] + s[1..];
      assert s[0] !in s[1..];
    }
  }

  /** What the invariant says about one task. */
  lemma Known(ts: Tasks, p: int)
    requires TasksOk(ts) && p in ts
    ensures SenderOk(ts, p) && ReceiverOk(ts, p) && QueueOk(ts, p)
  {
  }

  /** A change of one task that no other task's part of the invariant can notice. */
  predicate Invisible(t: Task, u: Task) {
    && u.senders == t.senders
    && Open(t) == Open(u)
    && (Open(t) ==> u.stage == t.stage && u.msg == t.msg && u.sendTo == t.sendTo)
    && (Holding(t.phase) || Holding(u.phase) ==> u.phase == t.phase)
  }

  lemma InvisibleKeeps(ts: Tasks, p: int, u: Task)
    requires TasksOk(ts) && p in ts && Invisible(ts[p], u)
    requires SenderOk(ts[p := u], p) && ReceiverOk(ts[p := u], p)
    ensures TasksOk(ts[p := u])
  {
    var ts' := ts[p := u];
    forall q | q in ts' && q != p
      ensures SenderOk(ts', q) && ReceiverOk(ts', q)
    {
      Known(ts, q);
    }
    forall q | q in ts'
      ensures QueueOk(ts', q)
    {
      Known(ts, q);
    }
  }

  predicate SendStep(step: Step) {
    step.CountSend? || step.BlockSend? || step.EndSend?
  }

  predicate RecvStep(step: Step) {
    step.SetFlag? || step.BlockRecv? || step.Resume? || step.ClearIntr? || step.EndRecv?
  }

  lemma InterruptKeeps(st: State, p: int)
    requires Inv(st) && p in st.tasks
    ensures Inv(DoInterrupt(st, p))
  {
    Known(st.tasks, p);
    InvisibleKeeps(st.tasks, p, st.tasks[p].(hasIntr := true));
  }

  lemma BeginSendKeeps(st: State, p: int, dst: int, m: Message)
    requires Inv(st) && p in st.tasks && st.tasks[p].phase == Idle
    ensures Inv(DoBeginSend(st, p, dst, m))
  {
    Known(st.tasks, p);
    InvisibleKeeps(st.tasks, p, DoBeginSend(st, p, dst, m).tasks[p]);
  }

  lemma BeginRecvKeeps(st: State, p: int, src: int)
    requires Inv(st) && p in st.tasks && st.tasks[p].phase == Idle
    ensures Inv(DoBeginRecv(st, p, src))
  {
    Known(st.tasks, p);
    InvisibleKeeps(st.tasks, p, DoBeginRecv(st, p, src).tasks[p]);
  }

  lemma SendStepKeeps(st: State, step: Step)
    requires Inv(st) && Enabled(st, step) && SendStep(step) && step.p in st.tasks
    ensures Inv(Apply(st, step))
  {
    var p := step.p;
    Known(st.tasks, p);
    var u := Apply(st, step).tasks[p];
    assert Apply(st, step).tasks == st.tasks[p := u];
    InvisibleKeeps(st.tasks, p, u);
  }

  lemma RecvStepKeeps(st: State, step: Step)
    requires Inv(st) && Enabled(st, step) && RecvStep(step) && step.p in st.tasks
    ensures Inv(Apply(st, step))
  {
    var p := step.p;
    Known(st.tasks, p);
    var u := Apply(st, step).tasks[p];
    assert Apply(st, step).tasks == st.tasks[p := u];
    InvisibleKeeps(st.tasks, p, u);
  }

  lemma StartCheckKeeps(st: State, p: int)
    requires Inv(st) && Enabled(st, StartCheck(p))
    ensures Inv(Apply(st, StartCheck(p)))
  {
    Known(st.tasks, p);
    InvisibleKeeps(st.tasks, p, Apply(st, StartCheck(p)).tasks[p]);
  }

  lemma ContinueCheckKeeps(st: State, p: int)
    requires Inv(st) && p in st.tasks && st.tasks[p].check != NoCheck && st.tasks[p].check != Passed
    ensures Inv(DoCheck(st, p))
  {
    Known(st.tasks, p);
    InvisibleKeeps(st.tasks, p, DoCheck(st, p).tasks[p]);
  }

  lemma UnblockKeeps(st: State, p: int)
    requires Inv(st) && Enabled(st, Unblock(p))
    ensures Inv(Apply(st, Unblock(p)))
  {
    Known(st.tasks, p);
    InvisibleKeeps(st.tasks, p, Apply(st, Unblock(p)).tasks[p]);
  }

  lemma CreateKeeps(ts: Tasks, p: int)
    requires TasksOk(ts) && p !in ts && 0 <= p < TASKS
    ensures TasksOk(ts[p := NewTask])
  {
    var ts' := ts[p := NewTask];
    forall q | q in ts
      ensures SenderOk(ts', q) && ReceiverOk(ts', q) && QueueOk(ts', q)
    {
      Known(ts, q);
    }
    assert SenderOk(ts', p) && ReceiverOk(ts', p) && QueueOk(ts', p);
  }

  lemma ExitKeeps(st: State, p: int)
    requires Inv(st) && p in st.tasks && Quiet(st, p)
    ensures TasksOk(st.tasks - {p})
  {
    var ts, ts' := st.tasks, st.tasks - {p};
    Known(ts, p);
    forall q | q in ts'
      ensures SenderOk(ts', q) && ReceiverOk(ts', q) && QueueOk(ts', q)
    {
      Known(ts, q);
    }
  }

  /** The tasks that t's part of the invariant ties to t. */
  predicate Concerns(t: Task, q: int) {
    || ((t.stage.Held? || t.stage.Copied?) && t.stage.taker == q)
    || (Holding(t.phase) && t.phase.sender == q)
    || (t.stage.Queued? && t.sendTo == q)
  }

  predicate SameRole(t: Task, u: Task) {
    u.phase == t.phase && u.stage == t.stage && u.msg == t.msg && u.sendTo == t.sendTo
  }

  /** Two records change, and q is another task. */
  ghost predicate Besides(ts: Tasks, ts': Tasks, p: int, s: int, q: int) {
    && p in ts && s in ts && p in ts' && s in ts' && ts' == ts[p := ts'[p]][s := ts'[s]]
    && q in ts && q != p && q != s
  }

  lemma SenderBesides(ts: Tasks, ts': Tasks, p: int, s: int, q: int)
    requires Besides(ts, ts', p, s, q) && SenderOk(ts, q)
    requires !Concerns(ts[p], q) && (SameRole(ts[s], ts'[s]) || !Concerns(ts[s], q))
    requires q in ts[p].senders ==> q in ts'[p].senders
    requires q in ts[s].senders ==> q in ts'[s].senders
    ensures SenderOk(ts', q)
  {
  }

  lemma ReceiverBesides(ts: Tasks, ts': Tasks, p: int, s: int, q: int)
    requires Besides(ts, ts', p, s, q) && ReceiverOk(ts, q)
    requires TasksOk(ts) && !Concerns(ts[p], q) && (SameRole(ts[s], ts'[s]) || !Concerns(ts[s], q))
    ensures ReceiverOk(ts', q)
  {
  }

  lemma QueueBesides(ts: Tasks, ts': Tasks, p: int, s: int, q: int)
    requires Besides(ts, ts', p, s, q) && QueueOk(ts, q)
    requires !Concerns(ts[p], q) && (SameRole(ts[s], ts'[s]) || !Concerns(ts[s], q))
    ensures QueueOk(ts', q)
  {
  }

  /** A step that writes fields of p and of s may ignore every task that neither is engaged with. */
  lemma PairKeeps(ts: Tasks, ts': Tasks, p: int, s: int)
    requires TasksOk(ts) && p in ts && s in ts && p in ts' && s in ts' && ts' == ts[p := ts'[p]][s := ts'[s]]
    requires forall q :: q in ts && q != p && q != s ==> !Concerns(ts[p], q)
    requires SameRole(ts[s], ts'[s]) || forall q :: q in ts && q != p && q != s ==> !Concerns(ts[s], q)
    requires forall q :: q != p && q != s && q in ts[p].senders ==> q in ts'[p].senders
    requires forall q :: q != p && q != s && q in ts[s].senders ==> q in ts'[s].senders
    requires SenderOk(ts', p) && SenderOk(ts', s)
    requires ReceiverOk(ts', p) && ReceiverOk(ts', s)
    requires QueueOk(ts', p) && QueueOk(ts', s)
    ensures TasksOk(ts')
  {
    hide SenderOk, ReceiverOk, QueueOk, Concerns, SameRole;
    forall q | q in ts' && q != p && q != s
      ensures SenderOk(ts', q) && ReceiverOk(ts', q) && QueueOk(ts', q)
    {
      SenderBesides(ts, ts', p, s, q);
      ReceiverBesides(ts, ts', p, s, q);
      QueueBesides(ts, ts', p, s, q);
    }
  }

  lemma EnqueueSender(st: State, p: int)
    requires Inv(st) && p in st.tasks && st.tasks[p].phase == SendStart
    ensures var st' := DoEnqueue(st, p);
            !st'.fault && p in st'.tasks && SenderOk(st'.tasks, p) && ReceiverOk(st'.tasks, p)
  {
    assert SenderOk(st.tasks, p) && ReceiverOk(st.tasks, p);
  }

  lemma EnqueueReceiver(st: State, p: int)
    requires Inv(st) && p in st.tasks && st.tasks[p].phase == SendStart
    ensures var st', d := DoEnqueue(st, p), st.tasks[p].sendTo;
            d in st.tasks && d in st'.tasks && SenderOk(st'.tasks, d) && ReceiverOk(st'.tasks, d)
  {
    assert SenderOk(st.tasks, p) && ReceiverOk(st.tasks, p);
    assert SenderOk(st.tasks, st.tasks[p].sendTo) && ReceiverOk(st.tasks, st.tasks[p].sendTo);
  }

  lemma EnqueueKeeps(st: State, p: int)
    requires Inv(st) && p in st.tasks && st.tasks[p].phase == SendStart
    ensures Inv(DoEnqueue(st, p))
  {
    EnqueueSender(st, p);
    EnqueueReceiver(st, p);
    var ts, ts' := st.tasks, DoEnqueue(st, p).tasks;
    var d := ts[p].sendTo;
    Known(ts, p);
    Known(ts, d);
    hide SenderOk, ReceiverOk;
    PairKeeps(ts, ts', p, d);
  }

  /** Under the invariant there is somebody to take off the list. */
  function NextSender(t: Task): int
    requires t.phase.RecvDequeue? && (t.phase.src == RECV_FROM_ANY ==> t.senders != [])
  {
    if t.phase.src == RECV_FROM_ANY then t.senders[0] else t.phase.src
  }

  lemma DequeueSender(st: State, p: int)
    requires Inv(st) && p in st.tasks && st.tasks[p].phase.RecvDequeue?
    requires ReceiverOk(st.tasks, p) && QueueOk(st.tasks, p)
    ensures var st', s := DoDequeue(st, p), NextSender(st.tasks[p]);
            !st'.fault && s in st.tasks && s in st'.tasks && SenderOk(st'.tasks, s) && ReceiverOk(st'.tasks, s)
  {
    var s := NextSender(st.tasks[p]);
    assert SenderOk(st.tasks, s) && ReceiverOk(st.tasks, s);
  }

  lemma DequeueReceiver(st: State, p: int)
    requires Inv(st) && p in st.tasks && st.tasks[p].phase.RecvDequeue?
    requires ReceiverOk(st.tasks, p) && QueueOk(st.tasks, p)
    ensures p in DoDequeue(st, p).tasks
    ensures SenderOk(DoDequeue(st, p).tasks, p) && ReceiverOk(DoDequeue(st, p).tasks, p)
  {
    assert SenderOk(st.tasks, p) && SenderOk(st.tasks, NextSender(st.tasks[p]));
  }

  /** Neither the receiver nor the sender it takes is engaged with anybody else. */
  lemma DequeueApart(ts: Tasks, p: int)
    requires TasksOk(ts) && p in ts && ts[p].phase.RecvDequeue? && ReceiverOk(ts, p) && QueueOk(ts, p)
    ensures var s := NextSender(ts[p]);
            && s in ts && s in ts[p].senders
            && forall q :: q != p && q != s ==> !Concerns(ts[p], q) && !Concerns(ts[s], q)
  {
    var s := NextSender(ts[p]);
    assert SenderOk(ts, p) && SenderOk(ts, s);
    hide ReceiverOk;
  }

  lemma DequeueKeeps(st: State, p: int)
    requires Inv(st) && p in st.tasks && st.tasks[p].phase.RecvDequeue?
    ensures Inv(DoDequeue(st, p))
  {
    var ts, ts' := st.tasks, DoDequeue(st, p).tasks;
    Known(ts, p);
    var s := NextSender(ts[p]);
    DequeueSender(st, p);
    DequeueReceiver(st, p);
    DequeueApart(ts, p);
    Known(ts, s);
    WithoutKeeps(ts[p].senders, s);
    hide SenderOk, ReceiverOk, Concerns, Without, TasksOk;
    PairKeeps(ts, ts', p, s);
  }

  lemma CopyOutKeeps(st: State, p: int)
    requires Inv(st) && p in st.tasks && st.tasks[p].phase.RecvCopy?
    ensures Inv(DoCopyOut(st, p))
  {
    var ts, ts' := st.tasks, DoCopyOut(st, p).tasks;
    var s := ts[p].phase.sender;
    Known(ts, p);
    Known(ts, s);
    PairKeeps(ts, ts', p, s);
  }

  lemma UnlinkKeeps(st: State, p: int)
    requires Inv(st) && p in st.tasks && st.tasks[p].phase.RecvUnlink?
    ensures Inv(DoUnlink(st, p))
  {
    var ts, ts' := st.tasks, DoUnlink(st, p).tasks;
    var s := ts[p].phase.sender;
    Known(ts, p);
    Known(ts, s);
    PairKeeps(ts, ts', p, s);
  }

  lemma AcknowledgeKeeps(st: State, p: int)
    requires Inv(st) && p in st.tasks && st.tasks[p].phase.RecvAck?
    ensures Inv(DoAcknowledge(st, p))
  {
    var ts, ts' := st.tasks, DoAcknowledge(st, p).tasks;
    var s := ts[p].phase.sender;
    Known(ts, p);
    Known(ts, s);
    PairKeeps(ts, ts', p, s);
  }

  lemma StepKeepsInv(st: State, step: Step)
    requires Inv(st) && Enabled(st, step)
    ensures Inv(Apply(st, step))
  {
    match step
    case Create(p) => CreateKeeps(st.tasks, p);
    case Exit(p) => ExitKeeps(st, p);
    case Enqueue(p) => EnqueueKeeps(st, p);
    case Dequeue(p) => DequeueKeeps(st, p);
    case CopyOut(p) => CopyOutKeeps(st, p);
    case Unlink(p) => UnlinkKeeps(st, p);
    case Acknowledge(p) => AcknowledgeKeeps(st, p);
    case Interrupt(p) => if p in st.tasks { InterruptKeeps(st, p); }
    case BeginSend(p, dst, m) => BeginSendKeeps(st, p, dst, m);
    case BeginRecv(p, src) => BeginRecvKeeps(st, p, src);
    case StartCheck(p) => StartCheckKeeps(st, p);
    case ContinueCheck(p) => ContinueCheckKeeps(st, p);
    case Unblock(p) => UnblockKeeps(st, p);
    case _ =>
      if SendStep(step) {
        SendStepKeeps(st, step);
      } else {
        RecvStepKeeps(st, step);
      }
  }
}
