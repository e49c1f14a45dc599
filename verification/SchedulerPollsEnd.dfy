/**
 Every check of a waiter comes to its end, and every CPU comes out of schedule(), with the answers that the message
 protocol really gives.
 */
module SchedulerPollsEnd {
  import opened Scheduler
  import opened SchedulerSteps
  import opened SchedulerInvariant
  import opened SchedulerWalk
  import opened SchedulerVisits
  import opened SchedulerPolls
  import I = Ipc
  import C = IpcChecks

  // ---------------------------------------------------------------- in the protocol

  /** A check begins only with its first step. */
  lemma ChecksBegin(m: I.State, step: I.Step, p: int)
    requires I.Inv(m) && I.Enabled(m, step) && step != I.StartCheck(p)
    requires p in I.Apply(m, step).tasks && I.Apply(m, step).tasks[p].check != I.NoCheck
    ensures p in m.tasks && m.tasks[p].check != I.NoCheck
  {
    if p in m.tasks && step.p != p {
      hide I.Inv, I.Enabled, I.Apply;
      C.OthersEndure(m, step, p);
    } else {
      hide I.Inv, I.Quiet, I.Without, I.Checked;
    }
  }

  lemma WokenUp(m: I.State, p: int)
    requires C.LetsGo(m, p)
    ensures I.Enabled(m, I.Unblock(p))
    ensures var m' := I.Apply(m, I.Unblock(p)); p in m'.tasks && m'.tasks[p].check == I.NoCheck
  {
  }

  /** Every read brings a check nearer to its end. */
  lemma ReadAdvances(m: I.State, p: int)
    requires I.Inv(m) && p in m.tasks && !C.Ended(m, p)
    ensures I.Enabled(m, I.ContinueCheck(p))
    ensures var m' := I.Apply(m, I.ContinueCheck(p));
            p in m'.tasks && C.Rank(m'.tasks[p].check) < C.Rank(m.tasks[p].check)
  {
    I.StepKeepsInv(m, I.ContinueCheck(p));
    NoFault(I.Apply(m, I.ContinueCheck(p)));
    hide I.Inv;
  }

  lemma NoFault(m: I.State)
    requires I.Inv(m)
    ensures !m.fault
  {
  }

  // ---------------------------------------------------------------- checks belong to a CPU

  predicate CheckedBy(x: Joint, p: int, c: nat) {
    c in x.begun && Asks(x.st, c) && Waiter(x.st, c) == p
  }

  ghost predicate Minded(x: Joint, p: int) {
    p in x.m.tasks && x.m.tasks[p].check != I.NoCheck ==> exists c :: CheckedBy(x, p, c)
  }

  /** Every check under way is that of a CPU which has come to that waiter. */
  ghost predicate NoStray(x: Joint) {
    forall p :: Minded(x, p)
  }

  lemma OldCheck(x: Joint, j: JointStep, p: int)
    requires JointInv(x) && Possible(x, j) && !(j.Begin? && Waiter(x.st, j.c) == p)
    requires p in Next(x, j).m.tasks && Next(x, j).m.tasks[p].check != I.NoCheck
    ensures p in x.m.tasks && x.m.tasks[p].check != I.NoCheck
  {
    StepsEnabled(x, j);
    SchedInv(x);
    var ms := MessageStep(x, j);
    if ms != [] {
      assert ms[0] != I.StartCheck(p);
      hide JointInv, Inv, I.Inv, I.Enabled, I.Apply;
      ChecksBegin(x.m, ms[0], p);
    }
  }

  lemma Decided(x: Joint, c: nat)
    requires JointInv(x) && Possible(x, Decide(c))
    ensures var p, m' := Waiter(x.st, c), Next(x, Decide(c)).m; p in m'.tasks ==> m'.tasks[p].check == I.NoCheck
  {
    if C.LetsGo(x.m, Waiter(x.st, c)) {
      WokenUp(x.m, Waiter(x.st, c));
    }
    hide JointInv, Apply, I.Apply;
  }

  lemma StepMinded(x: Joint, j: JointStep, p: int)
    requires JointInv(x) && Possible(x, j) && Minded(x, p)
    ensures Minded(Next(x, j), p)
  {
    var x' := Next(x, j);
    if p in x'.m.tasks && x'.m.tasks[p].check != I.NoCheck {
      if j.Begin? && Waiter(x.st, j.c) == p {
        hide JointInv;
        assert CheckedBy(x', p, j.c);
      } else {
        OldCheck(x, j, p);
        var c :| CheckedBy(x, p, c);
        if j == Decide(c) {
          Decided(x, c);
        } else {
          StillAsks(x, j, c);
          hide JointInv, Possible, Asks, Waiter;
          assert CheckedBy(x', p, c);
        }
      }
    }
  }

  lemma NextMinded(x: Joint, j: JointStep)
    requires JointInv(x) && Possible(x, j) && NoStray(x)
    ensures JointInv(Next(x, j)) && NoStray(Next(x, j))
  {
    hide JointInv, Possible, Next, Minded;
    NextKeeps(x, j);
    forall p
      ensures Minded(Next(x, j), p)
    {
      StepMinded(x, j, p);
    }
  }

  lemma {:induction false} RunMinded(x: Joint, js: seq<JointStep>)
    requires JointInv(x) && NoStray(x)
    ensures JointInv(JointAfter(x, js)) && NoStray(JointAfter(x, js))
    decreases |js|
  {
    hide JointInv, NoStray, Possible, Next;
    if js != [] {
      if Possible(x, js[0]) {
        NextMinded(x, js[0]);
      }
      RunMinded(if Possible(x, js[0]) then Next(x, js[0]) else x, js[1..]);
    }
  }

  // ---------------------------------------------------------------- one check

  /** The steps that CPU c makes by itself inside schedule(). */
  predicate Own(j: JointStep, c: nat) {
    match j
    case Sched(step) => step.c == c
    case Message(step) => step.ContinueCheck?
    case BlockFor(_, _) => false
    case Begin(d) => d == c
    case Decide(d) => d == c
  }

  predicate AllOwn(js: seq<JointStep>, c: nat) {
    forall j :: j in js ==> Own(j, c)
  }

  lemma {:induction false} JointThen(x: Joint, js: seq<JointStep>, rest: seq<JointStep>)
    ensures JointAfter(x, js + rest) == JointAfter(JointAfter(x, js), rest)
    decreases |js|
  {
    hide Possible, Next;
    if js == [] {
      assert js + rest == rest;
    } else {
      assert (js + rest)[0] == js[0] && (js + rest)[1..] == js[1..] + rest;
      JointThen(if Possible(x, js[0]) then Next(x, js[0]) else x, js[1..], rest);
    }
  }

  lemma JointOne(x: Joint, j: JointStep)
    requires Possible(x, j)
    ensures JointAfter(x, [j]) == Next(x, j)
  {
    hide Possible, Next;
    assert [j][1..] == [];
  }

  function Reads(p: int, n: nat): (js: seq<JointStep>)
    ensures forall j :: j in js ==> j == Message(I.ContinueCheck(p))
  {
    if n == 0 then [] else [Message(I.ContinueCheck(p))] + Reads(p, n - 1)
  }

  lemma OneRead(x: Joint, p: int)
    requires JointInv(x) && p in x.m.tasks && !C.Ended(x.m, p)
    ensures var j := Message(I.ContinueCheck(p));
            && Possible(x, j) && Next(x, j).st == x.st && Next(x, j).begun == x.begun
            && p in Next(x, j).m.tasks && C.Rank(Next(x, j).m.tasks[p].check) < C.Rank(x.m.tasks[p].check)
  {
    SchedInv(x);
    hide JointInv, I.Inv, Inv;
    ReadAdvances(x.m, p);
  }

  lemma RankIsZero(m: I.State, p: int)
    requires p in m.tasks
    ensures C.Ended(m, p) <==> C.Rank(m.tasks[p].check) == 0
  {
  }

  lemma {:induction false} ReadsEnd(x: Joint, p: int, n: nat)
    requires JointInv(x) && p in x.m.tasks && C.Rank(x.m.tasks[p].check) <= n
    ensures var x' := JointAfter(x, Reads(p, n)); x'.st == x.st && x'.begun == x.begun && C.Ended(x'.m, p)
    decreases n
  {
    hide JointInv, Next, C.Rank, C.Ended;
    RankIsZero(x.m, p);
    if n > 0 {
      var j := Message(I.ContinueCheck(p));
      assert Reads(p, n)[1..] == Reads(p, n - 1);
      if C.Ended(x.m, p) {
        hide Reads, JointAfter;
        EndedStays(x, p, n);
      } else {
        OneRead(x, p);
        NextKeeps(x, j);
        hide Possible;
        ReadsEnd(Next(x, j), p, n - 1);
      }
    }
  }

  lemma {:induction false} EndedStays(x: Joint, p: int, n: nat)
    requires C.Ended(x.m, p)
    ensures JointAfter(x, Reads(p, n)) == x
    decreases n
  {
    if n > 0 {
      assert Reads(p, n)[1..] == Reads(p, n - 1);
      assert !Possible(x, Message(I.ContinueCheck(p)));
      hide Possible, Next;
      EndedStays(x, p, n - 1);
    }
  }

  /** The visit of the waiter that c has come to. */
  function VisitSteps(x: Joint, c: nat): seq<JointStep>
    requires More(x.st, c)
  {
    if Asks(x.st, c) then [Begin(c)] + Reads(Waiter(x.st, c), 5) + [Decide(c)] else [Sched(CheckNext(c, true))]
  }

  lemma CanBegin(x: Joint, c: nat)
    requires JointInv(x) && NoStray(x) && Asks(x.st, c) && c !in x.begun
    ensures Possible(x, Begin(c))
  {
    var p := Waiter(x.st, c);
    SchedInv(x);
    WaiterWaits(x.st, c);
    assert Agree(x.st, x.m, p) && Minded(x, p);
    hide JointInv, NoStray, Inv, I.Inv;
    if x.m.tasks[p].check != I.NoCheck {
      var d :| CheckedBy(x, p, d);
      TwoWaiters(x.st, c, d);
      assert false;
    }
  }

  lemma WaiterKnown(x: Joint, c: nat)
    requires JointInv(x) && Asks(x.st, c)
    ensures Waiter(x.st, c) in x.m.tasks && C.Rank(x.m.tasks[Waiter(x.st, c)].check) <= 5
  {
    SchedInv(x);
    WaiterWaits(x.st, c);
    assert Agree(x.st, x.m, Waiter(x.st, c));
    hide JointInv, Inv, I.Inv;
  }

  /** The check has begun. */
  lemma Begun(x: Joint, c: nat)
    requires JointInv(x) && NoStray(x) && Asks(x.st, c)
    ensures var x' := JointAfter(x, [Begin(c)]); JointInv(x') && x'.st == x.st && c in x'.begun
  {
    hide JointInv, NoStray, Inv;
    if c in x.begun {
      assert !Possible(x, Begin(c)) && [Begin(c)][1..] == [];
    } else {
      CanBegin(x, c);
      NextKeeps(x, Begin(c));
      JointOne(x, Begin(c));
    }
  }

  /** One step of the scheduler brings the walk nearer to its end. */
  lemma Advances(x: Joint, j: JointStep, c: nat, ipc: bool)
    requires JointInv(x) && More(x.st, c) && Possible(x, j) && SchedStep(x, j) == [CheckNext(c, ipc)]
    ensures Walking(Next(x, j).st, c) && Left(Next(x, j).st, c) == Left(x.st, c) - 1
  {
    SchedInv(x);
    hide JointInv, Inv, Possible, Apply;
    VisitShortens(x.st, c, ipc);
  }

  lemma ReadsDone(x: Joint, c: nat)
    requires JointInv(x) && Asks(x.st, c) && c in x.begun
    ensures var x' := JointAfter(x, Reads(Waiter(x.st, c), 5));
            JointInv(x') && x'.st == x.st && Possible(x', Decide(c))
  {
    hide JointInv, JointAfter, Waiter;
    var p := Waiter(x.st, c);
    WaiterKnown(x, c);
    JointRunKeeps(x, Reads(p, 5));
    ReadsEnd(x, p, 5);
  }

  lemma CheckEnds(x: Joint, c: nat)
    requires JointInv(x) && NoStray(x) && Asks(x.st, c)
    ensures var st' := JointAfter(x, VisitSteps(x, c)).st; Walking(st', c) && Left(st', c) == Left(x.st, c) - 1
  {
    hide JointInv, NoStray, Left, JointAfter, Possible, Next, Waiter, Reads;
    var p := Waiter(x.st, c);
    Begun(x, c);
    var x1 := JointAfter(x, [Begin(c)]);
    ReadsDone(x1, c);
    var x2 := JointAfter(x1, Reads(p, 5));
    Advances(x2, Decide(c), c, C.LetsGo(x2.m, p));
    JointOne(x2, Decide(c));
    JointThen(x, [Begin(c)], Reads(p, 5));
    JointThen(x, [Begin(c)] + Reads(p, 5), [Decide(c)]);
  }

  lemma ChildEnds(x: Joint, c: nat)
    requires JointInv(x) && More(x.st, c) && !Asks(x.st, c)
    ensures var st' := JointAfter(x, VisitSteps(x, c)).st; Walking(st', c) && Left(st', c) == Left(x.st, c) - 1
  {
    hide JointInv, Left, JointAfter, Next;
    Advances(x, Sched(CheckNext(c, true)), c, true);
    JointOne(x, Sched(CheckNext(c, true)));
  }

  /** Every visit comes to its end, and the walk goes on: the check needs at most five reads. */
  lemma VisitEnds(x: Joint, c: nat)
    requires JointInv(x) && NoStray(x) && More(x.st, c)
    ensures var x' := JointAfter(x, VisitSteps(x, c));
            JointInv(x') && NoStray(x') && Walking(x'.st, c) && Left(x'.st, c) == Left(x.st, c) - 1
    ensures AllOwn(VisitSteps(x, c), c)
  {
    hide JointInv, NoStray, Left, JointAfter;
    RunMinded(x, VisitSteps(x, c));
    if Asks(x.st, c) {
      CheckEnds(x, c);
    } else {
      ChildEnds(x, c);
    }
  }

  // ---------------------------------------------------------------- the way out of schedule()

  /** Steps of CPU c alone lead out of schedule(), with a task running. */
  ghost predicate LeadsOut(x: Joint, js: seq<JointStep>, c: nat) {
    var st' := JointAfter(x, js).st;
    AllOwn(js, c) && Inv(st') && Runs(st', c) && TaskOf(st', Current(st', c)).status == Running
  }

  lemma LeadsOutThen(x: Joint, js: seq<JointStep>, rest: seq<JointStep>, c: nat)
    requires AllOwn(js, c) && LeadsOut(JointAfter(x, js), rest, c)
    ensures LeadsOut(x, js + rest, c)
  {
    hide Inv, Runs, JointAfter;
    JointThen(x, js, rest);
  }

  lemma PickLeadsOut(x: Joint, c: nat)
    requires JointInv(x) && Walking(x.st, c) && Left(x.st, c) <= 0
    ensures LeadsOut(x, [Sched(PickNext(c))], c)
  {
    SchedInv(x);
    hide JointInv, Inv, Apply;
    WalkEnds(x.st, c);
    JointOne(x, Sched(PickNext(c)));
    RunningOne(Next(x, Sched(PickNext(c))).st, c);
  }

  lemma {:induction false} WalkLeadsOut(x: Joint, c: nat)
    requires JointInv(x) && NoStray(x) && Walking(x.st, c)
    ensures exists js :: LeadsOut(x, js, c)
    decreases Left(x.st, c)
  {
    if Left(x.st, c) <= 0 {
      PickLeadsOut(x, c);
    } else {
      hide JointInv, NoStray, LeadsOut;
      VisitEnds(x, c);
      var x' := JointAfter(x, VisitSteps(x, c));
      hide JointAfter, VisitSteps;
      WalkLeadsOut(x', c);
      var rest :| LeadsOut(x', rest, c);
      LeadsOutThen(x, VisitSteps(x, c), rest, c);
    }
  }

  lemma Entering(x: Joint, c: nat)
    requires JointInv(x) && NoStray(x) && c in x.st.cpus && x.st.cpus[c].phase != Run
    ensures var js := [Sched(SwitchOut(c)), Sched(Inform(c))];
            var x' := JointAfter(x, js);
            AllOwn(js, c) && JointInv(x') && NoStray(x') && Walking(x'.st, c)
  {
    var js := [Sched(SwitchOut(c)), Sched(Inform(c))];
    RunMinded(x, js);
    SchedInv(x);
    OutLeads(x.st, c);
    var x1 := if Possible(x, js[0]) then Next(x, js[0]) else x;
    assert JointAfter(x, js) == JointAfter(x1, js[1..]);
    assert JointAfter(x1, js[1..]) == if Possible(x1, js[1]) then Next(x1, js[1]) else x1 by {
      assert js[1..] == [js[1]] && js[1..][1..] == [];
    }
    hide JointInv, NoStray, Inv, JointAfter;
    DyingLeads(x1.st, c);
  }

  lemma OutOfSchedule(x: Joint, c: nat)
    requires JointInv(x) && NoStray(x) && c in x.st.cpus && x.st.cpus[c].phase != Run
    ensures exists js :: LeadsOut(x, js, c)
  {
    hide JointInv, NoStray, JointAfter, LeadsOut;
    Entering(x, c);
    var js := [Sched(SwitchOut(c)), Sched(Inform(c))];
    WalkLeadsOut(JointAfter(x, js), c);
    var rest :| LeadsOut(JointAfter(x, js), rest, c);
    LeadsOutThen(x, js, rest, c);
  }

  /**
   In every run of all CPUs, senders, receivers and interrupts, a CPU that is inside schedule() can come out of it by
   its own steps, which include the reads of the checks that it makes, and then a task runs.
   */
  lemma PolledScheduleEnds(before: seq<JointStep>, c: nat)
    requires var st := JointAfter(JointBoot, before).st; c in st.cpus && st.cpus[c].phase != Run
    ensures exists js :: LeadsOut(JointAfter(JointBoot, before), js, c)
  {
    JointBootInv();
    assert NoStray(JointBoot);
    hide JointInv, NoStray, JointAfter, LeadsOut;
    RunMinded(JointBoot, before);
    OutOfSchedule(JointAfter(JointBoot, before), c);
  }
}
