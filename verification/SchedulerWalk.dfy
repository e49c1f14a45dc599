/** The walk over the waiting list, and schedule() as a whole when nothing else happens meanwhile. */
module SchedulerWalk {
  import opened Words
  import opened Scheduler
  import opened SchedulerSteps
  import opened SchedulerLists
  import opened SchedulerInvariant
  import opened SchedulerSafety

  /** The walk has not come to the end of the list. */
  predicate More(st: State, c: nat) {
    Walking(st, c) && st.cpus[c].phase.kept < |ListOf(st, WaitingOf(c))|
  }

  /** The walk from where it has arrived; `ipc` holds the answers of task_ipc_check in order. */
  function Walked(st: State, c: nat, ipc: seq<bool>): State
    decreases |ipc|
  {
    if ipc == [] || !More(st, c) then st else Walked(CheckedNext(st, c, ipc[0]), c, ipc[1..])
  }

  /** Those of w that stay, each judged once. */
  function Staying(st: State, w: seq<nat>, ipc: seq<bool>): seq<nat>
    requires |ipc| == |w|
  {
    if w == [] then []
    else (if Stays(st, w[0], ipc[0]) then [w[0]] else []) + Staying(st, w[1..], ipc[1..])
  }

  /** A waiter whose condition holds becomes ready on its CPU. */
  lemma LeaveIs(st: State, c: nat, k: nat)
    requires Inv(st) && c in st.cpus && k < |ListOf(st, WaitingOf(c))|
    ensures var w, st1 := ListOf(st, WaitingOf(c)), Unlink(st, WaitingOf(c), k);
            var st' := Inserted(st1, TaskOf(st1, w[k]).cpu, w[k]);
            && w[k] in st.tasks && c in st'.cpus && st'.cpus[c].phase == st.cpus[c].phase
            && st'.tasks == st.tasks[w[k] := st.tasks[w[k]].(status := Ready, place := On(ReadyOf(c)))]
            && ListOf(st', WaitingOf(c)) == w[..k] + w[k + 1..]
            && (forall q :: ListOf(st', ExitedOf(q)) == ListOf(st, ExitedOf(q)))
  {
    var p := ListOf(st, WaitingOf(c))[k];
    UnlinkListed(st, WaitingOf(c), k);
    assert TaskOk(st, p);
    hide Inv, TaskOk, Wrap, InsertPos, Listed;
    InsertedIs(Unlink(st, WaitingOf(c), k), p);
    hide Inserted;
  }

  /** What one visit does. */
  lemma VisitIs(st: State, c: nat, ipc: bool)
    requires Inv(st) && Enabled(st, CheckNext(c, ipc))
    ensures var k, w, st' := st.cpus[c].phase.kept, ListOf(st, WaitingOf(c)), CheckedNext(st, c, ipc);
            && Inv(st') && Walking(st', c) && w[k] in st.tasks
            && (forall q :: ListOf(st', ExitedOf(q)) == ListOf(st, ExitedOf(q)))
            && if Stays(st, w[k], ipc) then
                 st'.tasks == st.tasks && ListOf(st', WaitingOf(c)) == w && st'.cpus[c].phase == Check(k + 1)
               else
                 && ListOf(st', WaitingOf(c)) == w[..k] + w[k + 1..] && st'.cpus[c].phase == Check(k)
                 && st'.tasks == st.tasks[w[k] := st.tasks[w[k]].(status := Ready, place := On(ReadyOf(c)))]
  {
    hide Inv, Inserted, Stays, Unlink;
    CheckNextKeeps(st, c, ipc);
    LeaveIs(st, c, st.cpus[c].phase.kept);
  }

  lemma {:induction false} StayingSame(st: State, st': State, w: seq<nat>, ipc: seq<bool>)
    requires |ipc| == |w| && forall p :: p in w ==> TaskOf(st', p) == TaskOf(st, p)
    requires forall q :: ListOf(st', ExitedOf(q)) == ListOf(st, ExitedOf(q))
    ensures Staying(st', w, ipc) == Staying(st, w, ipc)
  {
    if w != [] {
      assert w[0] in w;
      StayingSame(st, st', w[1..], ipc[1..]);
    }
  }

  /** One visit, seen as a split of the list into those kept and those still to be visited. */
  lemma VisitSplits(st: State, c: nat, ipc: bool)
    requires Inv(st) && More(st, c)
    ensures var k, w, st1 := st.cpus[c].phase.kept, ListOf(st, WaitingOf(c)), CheckedNext(st, c, ipc);
            && Inv(st1) && Walking(st1, c)
            && var k1, w1 := st1.cpus[c].phase.kept, ListOf(st1, WaitingOf(c));
               && k1 <= |w1| && w1[..k1] == w[..k] + (if Stays(st, w[k], ipc) then [w[k]] else []) &&
                   w1[k1..] == w[k + 1..]
  {
    VisitIs(st, c, ipc);
    hide Inv, CheckedNext, Stays;
    var k, w := st.cpus[c].phase.kept, ListOf(st, WaitingOf(c));
    var rest := w[k + 1..];
    if Stays(st, w[k], ipc) {
      assert w[..k + 1] == w[..k] + [w[k]];
    } else {
      assert (w[..k] + rest)[..k] == w[..k] + [] && (w[..k] + rest)[k..] == rest;
    }
  }

  lemma VisitJudgesSame(st: State, c: nat, ipc: bool, ipcs: seq<bool>)
    requires Inv(st) && More(st, c) && |ipcs| == |ListOf(st, WaitingOf(c))| - st.cpus[c].phase.kept - 1
    ensures var rest := ListOf(st, WaitingOf(c))[st.cpus[c].phase.kept + 1..];
            Staying(CheckedNext(st, c, ipc), rest, ipcs) == Staying(st, rest, ipcs)
  {
    VisitIs(st, c, ipc);
    var k, w := st.cpus[c].phase.kept, ListOf(st, WaitingOf(c));
    WaitersDiffer(st, c, k);
    hide Inv, CheckedNext, Stays;
    StayingSame(st, CheckedNext(st, c, ipc), w[k + 1..], ipcs);
  }

  /**
   The walk visits each waiter once and takes off exactly those whose condition holds, judged as things were
   when the walk began; the others keep their order.
   */
  lemma {:induction false} WalkExact(st: State, c: nat, ipc: seq<bool>)
    requires Inv(st) && Walking(st, c) && |ipc| == |ListOf(st, WaitingOf(c))| - st.cpus[c].phase.kept
    ensures var k, w, st' := st.cpus[c].phase.kept, ListOf(st, WaitingOf(c)), Walked(st, c, ipc);
            && Inv(st') && Walking(st', c) && st'.cpus[c].phase.kept == |ListOf(st', WaitingOf(c))|
            && ListOf(st', WaitingOf(c)) == w[..k] + Staying(st, w[k..], ipc)
    decreases |ipc|
  {
    hide Inv, CheckedNext, Stays, ListOf;
    var k, w := st.cpus[c].phase.kept, ListOf(st, WaitingOf(c));
    if ipc != [] {
      VisitSplits(st, c, ipc[0]);
      VisitJudgesSame(st, c, ipc[0], ipc[1..]);
      assert w[k..][1..] == w[k + 1..];
      WalkExact(CheckedNext(st, c, ipc[0]), c, ipc[1..]);
    } else {
      assert w[..k] == w && w[k..] == [];
    }
  }

  lemma WaitersDiffer(st: State, c: nat, k: nat)
    requires Inv(st) && k < |ListOf(st, WaitingOf(c))|
    ensures ListOf(st, WaitingOf(c))[k] !in ListOf(st, WaitingOf(c))[k + 1..]
  {
    assert Holds(st, WaitingOf(c));
  }

  /** The waiter at position i > kept after one visit. */
  lemma LaterWaiter(st: State, c: nat, ipc: bool, i: nat)
    requires Inv(st) && More(st, c) && st.cpus[c].phase.kept < i < |ListOf(st, WaitingOf(c))|
    ensures var k, w, st1 := st.cpus[c].phase.kept, ListOf(st, WaitingOf(c)), CheckedNext(st, c, ipc);
            && Inv(st1) && Walking(st1, c)
            && var k1, w1 := st1.cpus[c].phase.kept, ListOf(st1, WaitingOf(c));
               && |w1| - k1 == |w| - k - 1 && k1 <= k1 + i - k - 1 < |w1| && w1[k1 + i - k - 1] == w[i]
               && forall b :: Stays(st1, w[i], b) == Stays(st, w[i], b)
  {
    var k, w := st.cpus[c].phase.kept, ListOf(st, WaitingOf(c));
    VisitIs(st, c, ipc);
    WaitersDiffer(st, c, k);
    hide Inv, CheckedNext;
    assert w[i] == w[k + 1..][i - k - 1];
    var st1 := CheckedNext(st, c, ipc);
    assert TaskOf(st1, w[i]) == TaskOf(st, w[i]);
  }

  /** The waiter visited first, if it leaves. */
  lemma FirstWaiter(st: State, c: nat, ipc: bool)
    requires Inv(st) && More(st, c)
    ensures var p, st1 := ListOf(st, WaitingOf(c))[st.cpus[c].phase.kept], CheckedNext(st, c, ipc);
            && Inv(st1) && Walking(st1, c)
            && (!Stays(st, p, ipc) ==> p in st1.tasks && st1.tasks[p].place == On(ReadyOf(c)))
  {
    hide Inv, CheckedNext, Stays;
    VisitIs(st, c, ipc);
  }

  /** And those taken off are ready, on their CPU's ready list. */
  lemma {:induction false} WokenAreReady(st: State, c: nat, ipc: seq<bool>, i: nat)
    requires Inv(st) && Walking(st, c) && |ipc| == |ListOf(st, WaitingOf(c))| - st.cpus[c].phase.kept
    requires st.cpus[c].phase.kept <= i < |ListOf(st, WaitingOf(c))|
    ensures var p, st' := ListOf(st, WaitingOf(c))[i], Walked(st, c, ipc);
            !Stays(st, p, ipc[i - st.cpus[c].phase.kept]) ==>
              TaskOf(st', p).status == Ready && p in ListOf(st', ReadyOf(c))
    decreases |ipc|
  {
    hide Inv, CheckedNext, Stays, ListOf;
    var k, st1 := st.cpus[c].phase.kept, CheckedNext(st, c, ipc[0]);
    if i == k {
      FirstWaiter(st, c, ipc[0]);
      StaysReady(st1, c, ipc[1..], ListOf(st, WaitingOf(c))[i]);
    } else {
      LaterWaiter(st, c, ipc[0], i);
      WokenAreReady(st1, c, ipc[1..], st1.cpus[c].phase.kept + i - k - 1);
    }
  }

  /** A ready task stays ready during the walk. */
  lemma {:induction false} StaysReady(st: State, c: nat, ipc: seq<bool>, p: nat)
    requires Inv(st) && Walking(st, c)
    ensures var st' := Walked(st, c, ipc);
            p in st.tasks && st.tasks[p].place == On(ReadyOf(c)) ==>
              TaskOf(st', p).status == Ready && p in ListOf(st', ReadyOf(c))
    decreases |ipc|
  {
    assert TaskOk(st, p) && Found(st, p);
    hide Inv, CheckedNext, Stays;
    if ipc != [] && More(st, c) {
      VisitIs(st, c, ipc[0]);
      StaysReady(CheckedNext(st, c, ipc[0]), c, ipc[1..], p);
    }
  }

  // ---------------------------------------------------------------- schedule() as a whole

  /** Up to the walk: the current task is on its next list. */
  function PutAway(st: State, c: nat): State {
    var st1 := SwitchedOut(GoTo(st, c, Out), c);
    var k := CpuOf(st1, c);
    if k.phase.Dying? then Informed(st1, c, k.phase.q) else st1
  }

  /** schedule() while no other CPU does anything. */
  function Scheduled(st: State, c: nat, ipc: seq<bool>): State {
    if TaskOf(st, Current(st, c)).preempt > 0 then st else Picked(Walked(PutAway(st, c), c, ipc), c)
  }

  lemma PutAwayIs(st: State, c: nat)
    requires c in st.cpus
    ensures var p, st1 := Current(st, c), GoTo(st, c, Check(0));
            PutAway(st, c) ==
              match TaskOf(st, p).status
              case Running => Inserted(st1, c, p)
              case Sending => Append(st1, p, WaitingOf(c))
              case Receiving => Append(st1, p, WaitingOf(c))
              case Waiting => Append(st1, p, WaitingOf(c))
              case Died => Informed(st1, c, TaskOf(st, p).ppid)
              case _ => st1
  {
    hide Wrap, InsertPos, Before;
    var out := GoTo(st, c, Out);
    assert GoTo(out, c, Check(0)) == GoTo(st, c, Check(0));
    assert GoTo(GoTo(out, c, Dying(TaskOf(st, Current(st, c)).ppid)), c, Check(0)) == GoTo(st, c, Check(0));
    assert GoTo(GoTo(st, c, Check(0)), c, Check(0)) == GoTo(st, c, Check(0));
    hide ListOf;
  }

  /** A task that runs may enter schedule(). */
  lemma MayEnter(st: State, c: nat)
    requires Inv(st) && Runs(st, c)
    ensures Inv(GoTo(st, c, Out))
  {
    assert CpuOk(st, c);
    PhaseKeeps(st, c, Out);
  }

  /** The task that ran is on the list of the status that it had; one on a semaphore's list stays there. */
  ghost predicate LeftOn(st: State, st1: State, p: nat, c: nat) {
    match TaskOf(st, p).status
    case Running => p in ListOf(st1, ReadyOf(c)) && TaskOf(st1, p).status == Ready
    case Sending => ListOf(st1, WaitingOf(c)) == ListOf(st, WaitingOf(c)) + [p] && TaskOf(st1, p).status == Sending
    case Receiving => ListOf(st1, WaitingOf(c)) == ListOf(st, WaitingOf(c)) + [p] && TaskOf(st1, p).status == Receiving
    case Waiting => ListOf(st1, WaitingOf(c)) == ListOf(st, WaitingOf(c)) + [p] && TaskOf(st1, p).status == Waiting
    case Died =>
      var l := ExitedOf(TaskOf(st, p).ppid);
      ListOf(st1, l) == ListOf(st, l) + [p] && TaskOf(st1, p).status == Died
    case _ => st1.lists == st.lists && TaskOf(st1, p).status == TaskOf(st, p).status
  }

  lemma LeaverUnlisted(st: State, c: nat)
    requires c in st.cpus && Inv(GoTo(st, c, Out))
    ensures TaskOf(st, Current(st, c)).status == Running ==> Current(st, c) !in ListOf(st, ReadyOf(c))
  {
    var st' := GoTo(st, c, Out);
    assert CpuOk(st', c) && Holds(st', ReadyOf(c));
    assert ListOf(st', ReadyOf(c)) == ListOf(st, ReadyOf(c));
  }

  lemma InsertedHolds(st: State, c: nat, p: nat)
    requires p !in ListOf(st, ReadyOf(c))
    ensures p in ListOf(Inserted(st, c, p), ReadyOf(c)) && TaskOf(Inserted(st, c, p), p).status == Ready
  {
    hide Wrap, InsertPos, Before;
    var s, i := ListOf(st, ReadyOf(c)), InsertPos(st, ListOf(st, ReadyOf(c)), TaskOf(st, p).vrun);
    assert (s[..i] + [p] + s[i..])[i] == p;
  }

  lemma PutAwayPlaces(st: State, c: nat)
    requires c in st.cpus && Inv(GoTo(st, c, Out))
    ensures LeftOn(st, PutAway(st, c), Current(st, c), c)
  {
    PutAwayIs(st, c);
    LeaverUnlisted(st, c);
    hide Inv, PutAway, Inserted;
    var p := Current(st, c);
    if TaskOf(st, p).status == Running {
      InsertedHolds(GoTo(st, c, Check(0)), c, p);
    }
  }

  lemma PutAwayKeeps(st: State, c: nat)
    requires c in st.cpus && Inv(GoTo(st, c, Out))
    ensures Inv(PutAway(st, c)) && Walking(PutAway(st, c), c) && PutAway(st, c).cpus[c].phase.kept == 0
  {
    var st1 := GoTo(st, c, Out);
    SwitchOutKeeps(st1, c);
    assert Enabled(st1, SwitchOut(c));
    var st2 := SwitchedOut(st1, c);
    hide Inv, Wrap, InsertPos;
    if st2.cpus[c].phase.Dying? {
      InformKeeps(st2, c);
    }
  }

  /**
   schedule() for a task of any status, and no spinlock held: it keeps the invariant, some task runs afterwards, and
   the waiting list is left with exactly those whose condition does not hold.
   */
  lemma ScheduledKeeps(st: State, c: nat, ipc: seq<bool>)
    requires c in st.cpus && Inv(GoTo(st, c, Out)) && TaskOf(st, Current(st, c)).preempt == 0
    requires |ipc| == |ListOf(PutAway(st, c), WaitingOf(c))|
    ensures var st1, st' := PutAway(st, c), Scheduled(st, c, ipc);
            && Inv(st') && Runs(st', c)
            && ListOf(st', WaitingOf(c)) == Staying(st1, ListOf(st1, WaitingOf(c)), ipc)
  {
    hide Inv, PutAway, Picked, Walked, Staying, Walking;
    PutAwayKeeps(st, c);
    var st1 := PutAway(st, c);
    WalkExact(st1, c, ipc);
    var w := ListOf(st1, WaitingOf(c));
    assert w[..0] + Staying(st1, w[0..], ipc) == Staying(st1, w, ipc) by {
      assert w[0..] == w;
    }
    PickNextKeeps(Walked(st1, c, ipc), c);
    PickedWaiting(Walked(st1, c, ipc), c);
  }

  lemma PickedWaiting(st: State, c: nat)
    ensures ListOf(Picked(st, c), WaitingOf(c)) == ListOf(st, WaitingOf(c))
  {
    hide Wrap, InsertPos;
  }
}
