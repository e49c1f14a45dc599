/**
 The scheduler and the message protocol together. A task blocks in both at once, the walk of a CPU asks
 task_ipc_check about each waiter that exchanges messages, and the waiter is woken in both at once. In between, other
 CPUs, senders, receivers and interrupts do what they like.
 */
module SchedulerPolls {
  import opened Scheduler
  import opened SchedulerSteps
  import opened SchedulerLists
  import opened SchedulerInvariant
  import opened SchedulerRuns
  import opened SchedulerWalk
  import opened SchedulerEffects
  import opened SchedulerVisits
  import I = Ipc
  import C = IpcChecks

  /** `begun`: the CPUs that are checking the waiter they have come to, with the protocol's state when they began. */
  datatype Joint = Joint(st: State, m: I.State, begun: map<nat, I.State>)

  datatype JointStep =
    | Sched(step: Step)          // a step of the scheduler that concerns no message
    | Message(move: I.Step)      // a step of the protocol that neither blocks nor wakes a task
    | BlockFor(c: nat, p: nat)   // task_block at the end of wait_receviced, or in msg_recv
    | Begin(c: nat)              // task_ipc_check is called for the waiter
    | Decide(c: nat)             // it has returned, and the walk goes on

  predicate ForMessage(status: Status) {
    status == Sending || status == Receiving
  }

  /** The waiter that c has come to exchanges messages. */
  predicate Asks(st: State, c: nat) {
    More(st, c) && ForMessage(TaskOf(st, Waiter(st, c)).status)
  }

  predicate IsSending(m: I.State, p: nat) {
    p in m.tasks && m.tasks[p].phase.SendCounted?
  }

  function BlockStatus(m: I.State, p: nat): Status {
    if IsSending(m, p) then Sending else Receiving
  }

  function BlockStep(m: I.State, p: nat): I.Step {
    if IsSending(m, p) then I.BlockSend(p) else I.BlockRecv(p)
  }

  predicate Plain(step: I.Step) {
    !step.BlockSend? && !step.BlockRecv? && !step.StartCheck? && !step.Unblock?
  }

  predicate Possible(x: Joint, j: JointStep) {
    match j
    case Sched(step) =>
      && Enabled(x.st, step) && (step.Block? ==> step.status == Waiting)
      && (step.CheckNext? ==> !Asks(x.st, step.c))
    case Message(step) => I.Enabled(x.m, step) && Plain(step)
    case BlockFor(c, p) =>
      && Current(x.st, c) == p && Enabled(x.st, Block(c, BlockStatus(x.m, p)))
      && I.Enabled(x.m, BlockStep(x.m, p))
    case Begin(c) => Asks(x.st, c) && c !in x.begun && I.Enabled(x.m, I.StartCheck(Waiter(x.st, c)))
    case Decide(c) => Asks(x.st, c) && c in x.begun && C.Ended(x.m, Waiter(x.st, c))
  }

  /** The step of the scheduler that a joint step is, if it is one. */
  function SchedStep(x: Joint, j: JointStep): seq<Step>
    requires Possible(x, j)
  {
    match j
    case Sched(step) => [step]
    case Message(_) => []
    case BlockFor(c, p) => [Block(c, BlockStatus(x.m, p))]
    case Begin(_) => []
    case Decide(c) => [CheckNext(c, C.LetsGo(x.m, Waiter(x.st, c)))]
  }

  function MessageStep(x: Joint, j: JointStep): seq<I.Step>
    requires Possible(x, j)
  {
    match j
    case Sched(_) => []
    case Message(step) => [step]
    case BlockFor(c, p) => [BlockStep(x.m, p)]
    case Begin(c) => [I.StartCheck(Waiter(x.st, c))]
    case Decide(c) => if C.LetsGo(x.m, Waiter(x.st, c)) then [I.Unblock(Waiter(x.st, c))] else []
  }

  lemma StepsEnabled(x: Joint, j: JointStep)
    requires Possible(x, j)
    ensures SchedStep(x, j) != [] ==> Enabled(x.st, SchedStep(x, j)[0])
    ensures MessageStep(x, j) != [] ==> I.Enabled(x.m, MessageStep(x, j)[0])
  {
  }

  function Next(x: Joint, j: JointStep): Joint
    requires Possible(x, j)
  {
    StepsEnabled(x, j);
    var ss, ms := SchedStep(x, j), MessageStep(x, j);
    Joint(if ss == [] then x.st else Apply(x.st, ss[0]),
          if ms == [] then x.m else I.Apply(x.m, ms[0]),
          if j.Begin? then x.begun[j.c := x.m] else if j.Decide? then x.begun - {j.c} else x.begun)
  }

  // ---------------------------------------------------------------- what every joint step keeps

  /** A task that waits for a message is blocked in the protocol too. */
  ghost predicate Agree(st: State, m: I.State, p: nat) {
    p in st.tasks && ForMessage(st.tasks[p].status) ==>
      && p in m.tasks
      && (st.tasks[p].status == Sending ==> m.tasks[p].phase.SendWait?)
      && (st.tasks[p].status == Receiving ==> m.tasks[p].phase.RecvWait?)
  }

  /**
   A check that is under way on CPU c began when its waiter was the same, and ends well if there was a reason then.
   */
  ghost predicate BegunOk(x: Joint, c: nat) {
    c in x.begun ==> Asks(x.st, c) && (C.ReadyIn(x.begun[c], Waiter(x.st, c)) ==> C.Sure(x.m, Waiter(x.st, c)))
  }

  ghost predicate JointInv(x: Joint) {
    && Inv(x.st) && I.Inv(x.m)
    && (forall p :: Agree(x.st, x.m, p)) && forall c :: BegunOk(x, c)
  }

  const JointBoot: Joint := Joint(Boot, I.Boot, map[])

  lemma JointBootInv()
    ensures JointInv(JointBoot)
  {
    BootInv();
    hide Inv;
  }

  /** Only the wake-up ends a wait in the protocol. */
  lemma WaitGoesOn(m: I.State, step: I.Step, p: int)
    requires I.Inv(m) && p in m.tasks && I.Enabled(m, step) && step != I.Unblock(p)
    requires m.tasks[p].phase.SendWait? || m.tasks[p].phase.RecvWait?
    ensures p in I.Apply(m, step).tasks && I.Apply(m, step).tasks[p].phase == m.tasks[p].phase
  {
    if step.p != p {
      hide I.Inv, I.Enabled, I.Apply;
      C.OthersEndure(m, step, p);
    } else {
      CheckKeepsPhase(m.tasks[p]);
      hide I.Inv, I.Checked;
    }
  }

  lemma CheckKeepsPhase(t: I.Task)
    ensures I.Checked(t).phase == t.phase
  {
  }

  lemma BlockedAgrees(m: I.State, p: nat)
    requires I.Enabled(m, BlockStep(m, p))
    ensures var m' := I.Apply(m, BlockStep(m, p));
            p in m'.tasks &&
            if BlockStatus(m, p) == Sending then m'.tasks[p].phase.SendWait? else m'.tasks[p].phase.RecvWait?
  {
  }

  /** What a joint step does to the scheduler's part. */
  lemma SchedPart(x: Joint, j: JointStep, c: nat)
    requires JointInv(x) && Possible(x, j)
    ensures Inv(Next(x, j).st)
    ensures if j.BlockFor? then BeginsWait(x.st, Next(x, j).st, j.p, BlockStatus(x.m, j.p))
            else if j.Sched? && j.step.Block? then BeginsWait(x.st, Next(x, j).st, Current(x.st, j.step.c), Waiting)
            else SameWaits(x.st, Next(x, j).st)
    ensures SchedStep(x, j) == [] || SchedStep(x, j)[0].c != c ==> SameWalk(x.st, Next(x, j).st, c)
  {
    StepsEnabled(x, j);
    var ss := SchedStep(x, j);
    if ss == [] {
      NothingMoves(x.st, c);
    } else {
      hide JointInv, Inv, Apply, Enabled, SameWaits, SameWalk, BeginsWait, KeepsSelves;
      SchedInv(x);
      StepKeeps(x.st, ss[0]);
      StepEffect(x.st, ss[0], c);
    }
  }

  lemma SchedInv(x: Joint)
    requires JointInv(x)
    ensures Inv(x.st) && I.Inv(x.m)
  {
  }

  lemma NothingMoves(st: State, c: nat)
    ensures SameWaits(st, st) && SameWalk(st, st, c)
  {
  }

  lemma MessagePart(x: Joint, j: JointStep)
    requires JointInv(x) && Possible(x, j)
    ensures I.Inv(Next(x, j).m)
  {
    StepsEnabled(x, j);
    SchedInv(x);
    hide JointInv, Inv, I.Inv, I.Enabled, I.Apply;
    var ms := MessageStep(x, j);
    if ms != [] {
      I.StepKeepsInv(x.m, ms[0]);
    }
  }

  /** A wait for p goes on in the protocol, unless the step decides that p goes. */
  lemma PhaseStays(x: Joint, j: JointStep, p: nat)
    requires JointInv(x) && Possible(x, j) && MessageStep(x, j) != [I.Unblock(p)]
    requires p in x.m.tasks && (x.m.tasks[p].phase.SendWait? || x.m.tasks[p].phase.RecvWait?)
    ensures p in Next(x, j).m.tasks && Next(x, j).m.tasks[p].phase == x.m.tasks[p].phase
  {
    StepsEnabled(x, j);
    SchedInv(x);
    hide JointInv, Inv, I.Inv, I.Enabled, I.Apply;
    var ms := MessageStep(x, j);
    if ms != [] {
      assert ms == [ms[0]];
      WaitGoesOn(x.m, ms[0], p);
    }
  }

  /** After a decision to let it go, the waiter waits no longer. */
  lemma LetGoIsReady(x: Joint, c: nat)
    requires JointInv(x) && Possible(x, Decide(c)) && C.LetsGo(x.m, Waiter(x.st, c))
    ensures var p, st' := Waiter(x.st, c), Next(x, Decide(c)).st; p in st'.tasks && st'.tasks[p].status == Ready
  {
    VisitIs(x.st, c, true);
    hide JointInv, Inv, CheckedNext;
  }

  lemma StepAgrees(x: Joint, j: JointStep, p: nat)
    requires JointInv(x) && Possible(x, j)
    ensures Agree(Next(x, j).st, Next(x, j).m, p)
  {
    assert Agree(x.st, x.m, p);
    SchedPart(x, j, 0);
    if j.BlockFor? && j.p == p {
      BlockedAgrees(x.m, p);
    }
    if j.Decide? && C.LetsGo(x.m, Waiter(x.st, j.c)) {
      LetGoIsReady(x, j.c);
    }
    var x' := Next(x, j);
    if p in x.st.tasks && ForMessage(x.st.tasks[p].status) && MessageStep(x, j) != [I.Unblock(p)] {
      PhaseStays(x, j, p);
    }
    hide JointInv, Inv, Apply, Enabled, I.Apply, I.Enabled;
  }

  lemma WaiterWaits(st: State, c: nat)
    requires Inv(st) && More(st, c)
    ensures var p := Waiter(st, c);
            p in st.tasks && WaitLike(st.tasks[p].status) && st.tasks[p].place == On(WaitingOf(c))
  {
    assert Holds(st, WaitingOf(c));
    assert TaskOk(st, Waiter(st, c));
  }

  lemma RunnerWaitsNot(st: State, c: nat, d: nat)
    requires Inv(st) && More(st, c) && Runs(st, d)
    ensures Waiter(st, c) != Current(st, d)
  {
    WaiterWaits(st, c);
    assert CpuOk(st, d);
  }

  lemma TwoWaiters(st: State, c: nat, d: nat)
    requires Inv(st) && More(st, c) && More(st, d) && c != d
    ensures Waiter(st, c) != Waiter(st, d)
  {
    WaiterWaits(st, c);
    WaiterWaits(st, d);
  }

  /** While CPU c checks a waiter, every step of the scheduler but its own decision is one of another CPU. */
  lemma OthersStep(x: Joint, j: JointStep, c: nat)
    requires JointInv(x) && Possible(x, j) && Asks(x.st, c) && j != Decide(c)
    ensures SchedStep(x, j) == [] || SchedStep(x, j)[0].c != c
  {
    StepsEnabled(x, j);
    hide JointInv;
    var ss := SchedStep(x, j);
    if ss != [] && ss[0].c == c {
      OwnStep(x.st, ss[0], c);
    }
  }

  lemma SameWalkAsks(st: State, st': State, c: nat)
    requires More(st, c) && SameWalk(st, st', c)
    ensures More(st', c) && Waiter(st', c) == Waiter(st, c)
  {
  }

  /** The waiter that is being checked goes on waiting. */
  lemma StillAsks(x: Joint, j: JointStep, c: nat)
    requires JointInv(x) && Possible(x, j) && Asks(x.st, c) && j != Decide(c)
    ensures Asks(Next(x, j).st, c) && Waiter(Next(x, j).st, c) == Waiter(x.st, c)
  {
    var st' := Next(x, j).st;
    SchedInv(x);
    SchedPart(x, j, c);
    OthersStep(x, j, c);
    SameWalkAsks(x.st, st', c);
    WaiterWaits(st', c);
    StepsEnabled(x, j);
    if j.BlockFor? {
      RunnerWaitsNot(x.st, c, j.c);
    } else if j.Sched? && j.step.Block? {
      RunnerWaitsNot(x.st, c, j.step.c);
    }
    hide JointInv, Inv, Next, More, Waiter;
  }

  /** The steps of the protocol that come with a joint step do not wake the waiter that c is checking. */
  lemma NotWoken(x: Joint, j: JointStep, c: nat)
    requires JointInv(x) && Possible(x, j) && Asks(x.st, c) && j != Decide(c)
    ensures MessageStep(x, j) != [I.Unblock(Waiter(x.st, c))]
  {
    SchedInv(x);
    if j.Decide? {
      TwoWaiters(x.st, c, j.c);
    }
  }

  lemma StillSure(x: Joint, j: JointStep, p: nat)
    requires JointInv(x) && Possible(x, j) && MessageStep(x, j) != [I.Unblock(p)] && C.Sure(x.m, p)
    ensures C.Sure(Next(x, j).m, p)
  {
    StepsEnabled(x, j);
    SchedInv(x);
    hide JointInv, Inv, I.Inv, I.Enabled, I.Apply, C.Sure;
    var ms := MessageStep(x, j);
    if ms != [] {
      assert ms == [ms[0]];
      C.StepKeepsSure(x.m, ms[0], p);
    }
  }

  lemma StepBegun(x: Joint, j: JointStep, c: nat)
    requires JointInv(x) && Possible(x, j)
    ensures BegunOk(Next(x, j), c)
  {
    assert BegunOk(x, c);
    SchedInv(x);
    if j == Begin(c) {
      hide JointInv, Inv;
      if C.ReadyIn(x.m, Waiter(x.st, c)) {
        C.StartIsSure(x.m, Waiter(x.st, c));
      }
    } else if j != Decide(c) && c in x.begun {
      StillAsks(x, j, c);
      NotWoken(x, j, c);
      if C.Sure(x.m, Waiter(x.st, c)) {
        StillSure(x, j, Waiter(x.st, c));
      }
      hide JointInv, Inv, Asks, Waiter, C.Sure, C.ReadyIn;
    }
  }

  lemma NextKeeps(x: Joint, j: JointStep)
    requires JointInv(x) && Possible(x, j)
    ensures JointInv(Next(x, j))
  {
    SchedPart(x, j, 0);
    MessagePart(x, j);
    var x' := Next(x, j);
    hide Inv, I.Inv, Next, Possible, BegunOk, Agree;
    forall p
      ensures Agree(x'.st, x'.m, p)
    {
      StepAgrees(x, j, p);
    }
    forall c
      ensures BegunOk(x', c)
    {
      StepBegun(x, j, c);
    }
  }

  // ---------------------------------------------------------------- runs

  function JointAfter(x: Joint, js: seq<JointStep>): Joint
    decreases |js|
  {
    if js == [] then x else JointAfter(if Possible(x, js[0]) then Next(x, js[0]) else x, js[1..])
  }

  lemma {:induction false} JointRunKeeps(x: Joint, js: seq<JointStep>)
    requires JointInv(x)
    ensures JointInv(JointAfter(x, js))
    decreases |js|
  {
    hide JointInv, Possible, Next;
    if js != [] {
      if Possible(x, js[0]) {
        NextKeeps(x, js[0]);
      }
      JointRunKeeps(if Possible(x, js[0]) then Next(x, js[0]) else x, js[1..]);
    }
  }

  /** The scheduler's steps of a joint run. */
  function SchedSteps(x: Joint, js: seq<JointStep>): seq<Step>
    decreases |js|
  {
    if js == [] then []
    else if Possible(x, js[0]) then SchedStep(x, js[0]) + SchedSteps(Next(x, js[0]), js[1..])
    else SchedSteps(x, js[1..])
  }

  /** A visit, with the states of the protocol when the check of the waiter began and when the walk acted on it. */
  datatype Poll = Poll(visit: Visit, began: I.State, ended: I.State)

  predicate Polled(x: Joint, j: JointStep, c: nat)
  {
    Possible(x, j) && SchedStep(x, j) != [] && SchedStep(x, j)[0].CheckNext? && SchedStep(x, j)[0].c == c
  }

  function PollOf(x: Joint, j: JointStep, c: nat): Poll
    requires Polled(x, j, c)
  {
    StepsEnabled(x, j);
    Poll(VisitOf(x.st, SchedStep(x, j)[0], c), if c in x.begun then x.begun[c] else x.m, x.m)
  }

  function PollsIn(x: Joint, js: seq<JointStep>, c: nat): seq<Poll>
    decreases |js|
  {
    if js == [] then []
    else
      var rest := PollsIn(if Possible(x, js[0]) then Next(x, js[0]) else x, js[1..], c);
      if Polled(x, js[0], c) then [PollOf(x, js[0], c)] + rest else rest
  }

  function VisitsOf(ps: seq<Poll>): (vs: seq<Visit>)
    ensures |vs| == |ps| && forall i :: 0 <= i < |ps| ==> vs[i] == ps[i].visit
  {
    if ps == [] then [] else [ps[0].visit] + VisitsOf(ps[1..])
  }

  /**
   A visit is right. Of a waiter for messages: if there was a reason to let it go when its check began, it leaves the
   list; and if it leaves, there is a reason when it does. A waiter for a child leaves exactly if one has exited.
   */
  ghost predicate Right(poll: Poll) {
    var (p, st) := (poll.visit.p, poll.visit.st);
    if ForMessage(TaskOf(st, p).status) then
      && (C.ReadyIn(poll.began, p) ==> !poll.visit.stays)
      && (!poll.visit.stays ==> C.ReadyIn(poll.ended, p))
    else
      TaskOf(st, p).status == Waiting && (poll.visit.stays <==> ListOf(st, ExitedOf(p)) == [])
  }

  lemma SureLetsGo(m: I.State, p: nat)
    requires C.Sure(m, p) && C.Ended(m, p)
    ensures C.LetsGo(m, p)
  {
  }

  lemma PollIsRight(x: Joint, j: JointStep, c: nat)
    requires JointInv(x) && Polled(x, j, c)
    ensures Right(PollOf(x, j, c))
  {
    SchedInv(x);
    StepsEnabled(x, j);
    assert BegunOk(x, c);
    var p := Waiter(x.st, c);
    WaiterWaits(x.st, c);
    hide JointInv, Inv, I.Inv, C.ReadyIn, C.Sure, C.LetsGo, C.Ended;
    if j.Decide? {
      if C.Sure(x.m, p) {
        SureLetsGo(x.m, p);
      }
      if C.LetsGo(x.m, p) {
        C.LetsGoIsReady(x.m, p);
      }
    }
  }

  /** The joint run, seen from the scheduler alone. */
  lemma {:induction false} ScheduleOf(x: Joint, js: seq<JointStep>, c: nat)
    ensures After(x.st, SchedSteps(x, js)) == JointAfter(x, js).st
    ensures VisitsIn(x.st, SchedSteps(x, js), c) == VisitsOf(PollsIn(x, js, c))
    decreases |js|
  {
    if js != [] {
      var x' := if Possible(x, js[0]) then Next(x, js[0]) else x;
      hide JointAfter;
      JointAfterIs(x, js);
      ScheduleOf(x', js[1..], c);
      if Possible(x, js[0]) {
        StepsEnabled(x, js[0]);
        OneSchedStep(x, js[0], SchedSteps(x', js[1..]), c);
      }
    }
  }

  lemma JointAfterIs(x: Joint, js: seq<JointStep>)
    requires js != []
    ensures JointAfter(x, js) == JointAfter(if Possible(x, js[0]) then Next(x, js[0]) else x, js[1..])
  {
    hide Possible, Next;
  }

  lemma OneSchedStep(x: Joint, j: JointStep, rest: seq<Step>, c: nat)
    requires Possible(x, j)
    ensures After(x.st, SchedStep(x, j) + rest) == After(Next(x, j).st, rest)
    ensures VisitsIn(x.st, SchedStep(x, j) + rest, c) ==
            (if Polled(x, j, c) then [PollOf(x, j, c).visit] else []) + VisitsIn(Next(x, j).st, rest, c)
  {
    StepsEnabled(x, j);
    var ss := SchedStep(x, j);
    if ss == [] {
      assert ss + rest == rest;
    } else {
      assert ss == [ss[0]] && (ss + rest)[0] == ss[0] && (ss + rest)[1..] == rest;
      hide Enabled, Apply, Stays;
    }
  }

  /** The walk of c has not come to its end in a joint run. */
  predicate NoPick(js: seq<JointStep>, c: nat) {
    Sched(PickNext(c)) !in js
  }

  lemma {:induction false} NoPickInSteps(x: Joint, js: seq<JointStep>, c: nat)
    requires NoPick(js, c)
    ensures PickNext(c) !in SchedSteps(x, js)
    decreases |js|
  {
    if js != [] {
      assert js[0] in js;
      hide Possible, Next;
      NoPickInSteps(if Possible(x, js[0]) then Next(x, js[0]) else x, js[1..], c);
    }
  }

  lemma {:induction false} PollsAreRight(x: Joint, js: seq<JointStep>, c: nat)
    requires JointInv(x)
    ensures forall poll :: poll in PollsIn(x, js, c) ==> Right(poll)
    decreases |js|
  {
    hide JointInv, Possible, Next, Polled, PollOf, Right;
    if js != [] {
      if Polled(x, js[0], c) {
        PollIsRight(x, js[0], c);
      }
      if Possible(x, js[0]) {
        NextKeeps(x, js[0]);
      }
      PollsAreRight(if Possible(x, js[0]) then Next(x, js[0]) else x, js[1..], c);
    }
  }

  lemma EachVisitedFrom(x: Joint, js: seq<JointStep>, c: nat)
    requires JointInv(x) && Walking(x.st, c) && x.st.cpus[c].phase.kept == 0 && NoPick(js, c)
    requires Walking(JointAfter(x, js).st, c) && !More(JointAfter(x, js).st, c)
    ensures var ps, w := PollsIn(x, js, c), ListOf(x.st, WaitingOf(c));
            && |ps| == |w| && (forall i :: 0 <= i < |w| ==> ps[i].visit.p == w[i])
            && (forall i, j :: 0 <= i < j < |w| ==> w[i] != w[j])
            && ListOf(JointAfter(x, js).st, WaitingOf(c)) == Stayers(VisitsOf(ps))
            && forall poll :: poll in ps ==> Right(poll)
  {
    SchedInv(x);
    ScheduleOf(x, js, c);
    NoPickInSteps(x, js, c);
    PollsAreRight(x, js, c);
    hide JointInv, Inv, PollsIn, SchedSteps, JointAfter, After, VisitsIn, Right, Stayers;
    WholeWalk(x.st, SchedSteps(x, js), c);
  }

  /**
   In every run of all CPUs together with all senders, receivers and interrupts, from the start of a walk to its end:
   every waiter was visited exactly once, those that stayed are the list, in order, and every visit was right.
   */
  lemma EachVisitedOnce(before: seq<JointStep>, js: seq<JointStep>, c: nat)
    requires var x := JointAfter(JointBoot, before);
             && Walking(x.st, c) && x.st.cpus[c].phase.kept == 0 && NoPick(js, c)
             && Walking(JointAfter(x, js).st, c) && !More(JointAfter(x, js).st, c)
    ensures var x := JointAfter(JointBoot, before);
            var ps, w := PollsIn(x, js, c), ListOf(x.st, WaitingOf(c));
            && |ps| == |w| && (forall i :: 0 <= i < |w| ==> ps[i].visit.p == w[i])
            && (forall i, j :: 0 <= i < j < |w| ==> w[i] != w[j])
            && ListOf(JointAfter(x, js).st, WaitingOf(c)) == Stayers(VisitsOf(ps))
            && forall poll :: poll in ps ==> Right(poll)
  {
    JointBootInv();
    JointRunKeeps(JointBoot, before);
    hide JointInv, JointAfter, PollsIn, Right, Stayers;
    EachVisitedFrom(JointAfter(JointBoot, before), js, c);
  }
}
