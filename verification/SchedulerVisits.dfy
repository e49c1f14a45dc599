/** The walk over a waiting list while other CPUs go on with their work, and the way out of schedule(). */
module SchedulerVisits {
  import opened Scheduler
  import opened SchedulerSteps
  import opened SchedulerLists
  import opened SchedulerInvariant
  import opened SchedulerSafety
  import opened SchedulerRuns
  import opened SchedulerWalk
  import opened SchedulerEffects

  /** A visit: the waiter, whether it stays, and the state at that moment. */
  datatype Visit = Visit(p: nat, stays: bool, st: State)

  /** The waiter at which the walk has arrived. */
  function Waiter(st: State, c: nat): nat
    requires More(st, c)
  {
    ListOf(st, WaitingOf(c))[st.cpus[c].phase.kept]
  }

  predicate Visits(st: State, step: Step, c: nat) {
    step.CheckNext? && step.c == c && Enabled(st, step)
  }

  function VisitOf(st: State, step: Step, c: nat): Visit
    requires Visits(st, step, c)
  {
    Visit(Waiter(st, c), Stays(st, Waiter(st, c), step.ipc), st)
  }

  /** The visits of CPU c in a run of all CPUs. */
  function VisitsIn(st: State, steps: seq<Step>, c: nat): seq<Visit>
    decreases |steps|
  {
    if steps == [] then []
    else
      var rest := VisitsIn(if Enabled(st, steps[0]) then Apply(st, steps[0]) else st, steps[1..], c);
      if Visits(st, steps[0], c) then [VisitOf(st, steps[0], c)] + rest else rest
  }

  function Stayers(vs: seq<Visit>): seq<nat> {
    if vs == [] then [] else (if vs[0].stays then [vs[0].p] else []) + Stayers(vs[1..])
  }

  /** From k kept of the list w, the visits vs have led to k' kept of the list w'. */
  ghost predicate Led(k: nat, w: seq<nat>, k': nat, w': seq<nat>, vs: seq<Visit>) {
    && k + |vs| <= |w| && k' <= |w'|
    && (forall i :: 0 <= i < |vs| ==> vs[i].p == w[k + i])
    && w'[..k'] == w[..k] + Stayers(vs) && w'[k'..] == w[k + |vs|..]
  }

  /** One visit of p: it is kept or taken off, and the walk goes on behind it. */
  ghost predicate LedBy(k: nat, w: seq<nat>, k1: nat, w1: seq<nat>, p: nat, stays: bool) {
    && k < |w| && k1 <= |w1| && p == w[k]
    && w1[..k1] == w[..k] + (if stays then [p] else []) && w1[k1..] == w[k + 1..]
  }

  /** How far the walk of CPU c has come since st: the visits made, those kept, and those still to come. */
  ghost predicate Progress(st: State, st': State, c: nat, vs: seq<Visit>) {
    && Walking(st, c) && Walking(st', c)
    && Led(st.cpus[c].phase.kept, ListOf(st, WaitingOf(c)), st'.cpus[c].phase.kept, ListOf(st', WaitingOf(c)), vs)
  }

  lemma NoProgress(st: State, c: nat)
    requires Inv(st) && Walking(st, c)
    ensures Progress(st, st, c, [])
  {
    assert CpuOk(st, c);
    hide Inv;
    var s := ListOf(st, WaitingOf(c))[..st.cpus[c].phase.kept];
    assert s + Stayers([]) == s;
  }

  lemma DropMore(w: seq<nat>, k: nat, n: nat)
    requires k + n <= |w|
    ensures w[k + n..] == w[k..][n..]
  {
  }

  lemma Joined(a: seq<nat>, b: seq<nat>, d: seq<nat>)
    ensures (a + b) + d == a + (b + d)
  {
  }

  lemma LedOneMore(k: nat, w: seq<nat>, k1: nat, w1: seq<nat>, k': nat, w': seq<nat>, v: Visit, vs: seq<Visit>)
    requires LedBy(k, w, k1, w1, v.p, v.stays) && Led(k1, w1, k', w', vs)
    ensures Led(k, w, k', w', [v] + vs)
  {
    var all, kept := [v] + vs, if v.stays then [v.p] else [];
    assert all[1..] == vs;
    Joined(w[..k], kept, Stayers(vs));
    DropMore(w1, k1, |vs|);
    DropMore(w, k + 1, |vs|);
    assert |w1| - k1 == |w| - k - 1;
    forall i | 0 <= i < |all|
      ensures all[i].p == w[k + i]
    {
      if i > 0 {
        assert w1[k1..][i - 1] == w[k + 1..][i - 1];
      }
    }
  }

  lemma OneVisit(st: State, st1: State, st': State, c: nat, v: Visit, vs: seq<Visit>)
    requires Walking(st, c) && Progress(st1, st', c, vs)
    requires LedBy(st.cpus[c].phase.kept, ListOf(st, WaitingOf(c)), st1.cpus[c].phase.kept, ListOf(st1, WaitingOf(c)),
             v.p, v.stays)
    ensures Progress(st, st', c, [v] + vs)
  {
    hide Led, LedBy, ListOf;
    LedOneMore(st.cpus[c].phase.kept, ListOf(st, WaitingOf(c)), st1.cpus[c].phase.kept, ListOf(st1, WaitingOf(c)),
               st'.cpus[c].phase.kept, ListOf(st', WaitingOf(c)), v, vs);
  }

  lemma OtherCpuActs(st: State, st1: State, st': State, c: nat, vs: seq<Visit>)
    requires Walking(st, c) && SameWalk(st, st1, c) && Progress(st1, st', c, vs)
    ensures Progress(st, st', c, vs)
  {
  }

  /** Of CPU c's own steps only a visit or the end of the walk is possible. */
  lemma OwnStep(st: State, step: Step, c: nat)
    requires Walking(st, c) && Enabled(st, step) && step.c == c
    ensures step.CheckNext? || step.PickNext?
  {
  }

  lemma VisitStep(st: State, step: Step, c: nat)
    requires Inv(st) && Visits(st, step, c)
    ensures var st1 := Apply(st, step);
            && More(st, c) && Walking(st1, c)
            && LedBy(st.cpus[c].phase.kept, ListOf(st, WaitingOf(c)), st1.cpus[c].phase.kept, ListOf(st1, WaitingOf(c)),
                     Waiter(st, c), Stays(st, Waiter(st, c), step.ipc))
  {
    VisitSplits(st, c, step.ipc);
    hide Inv, CheckedNext, Stays;
  }

  /**
   In every interleaving of all CPUs up to the end of the walk: the walk visits the waiters one after the other,
   each once, keeps those that stay at their visit, in order, and takes off the others.
   */
  lemma {:induction false} WalkInterleaved(st: State, steps: seq<Step>, c: nat)
    requires Inv(st) && Walking(st, c) && PickNext(c) !in steps
    ensures Inv(After(st, steps)) && Progress(st, After(st, steps), c, VisitsIn(st, steps, c))
    decreases |steps|
  {
    hide Inv, Enabled, Apply, Progress, Stays, SameWalk, LedBy;
    if steps == [] {
      NoProgress(st, c);
    } else if !Enabled(st, steps[0]) {
      WalkInterleaved(st, steps[1..], c);
    } else {
      var step, st1 := steps[0], Apply(st, steps[0]);
      assert step in steps;
      StepKeeps(st, step);
      if step.c != c {
        StepEffect(st, step, c);
        StillWalking(st, st1, c);
        WalkInterleaved(st1, steps[1..], c);
        OtherCpuActs(st, st1, After(st, steps), c, VisitsIn(st, steps, c));
      } else {
        OwnStep(st, step, c);
        VisitStep(st, step, c);
        WalkInterleaved(st1, steps[1..], c);
        OneVisit(st, st1, After(st, steps), c, VisitOf(st, step, c), VisitsIn(st1, steps[1..], c));
      }
    }
  }

  lemma StillWalking(st: State, st1: State, c: nat)
    requires Walking(st, c) && SameWalk(st, st1, c)
    ensures Walking(st1, c)
  {
  }

  /**
   At the end of the walk every waiter has been visited exactly once, and the list holds those that stayed, in order.
   */
  lemma WholeWalk(st: State, steps: seq<Step>, c: nat)
    requires Inv(st) && Walking(st, c) && st.cpus[c].phase.kept == 0 && PickNext(c) !in steps
    requires Walking(After(st, steps), c) && !More(After(st, steps), c)
    ensures var vs, w := VisitsIn(st, steps, c), ListOf(st, WaitingOf(c));
            && |vs| == |w| && (forall i :: 0 <= i < |w| ==> vs[i].p == w[i])
            && (forall i, j :: 0 <= i < j < |w| ==> w[i] != w[j])
            && ListOf(After(st, steps), WaitingOf(c)) == Stayers(vs)
  {
    WalkInterleaved(st, steps, c);
    assert Holds(st, WaitingOf(c));
    hide Inv, VisitsIn, After;
    var w' := ListOf(After(st, steps), WaitingOf(c));
    assert w'[..|w'|] == w';
  }

  // ---------------------------------------------------------------- the way out of schedule()

  function Checks(c: nat, ipc: seq<bool>): seq<Step> {
    if ipc == [] then [] else [CheckNext(c, ipc[0])] + Checks(c, ipc[1..])
  }

  /** The steps of schedule() on CPU c; those that it has behind it, or has no need of, are passed by. */
  function OwnSteps(c: nat, ipc: seq<bool>): seq<Step> {
    [SwitchOut(c), Inform(c)] + Checks(c, ipc) + [PickNext(c)]
  }

  lemma Then(st: State, step: Step, rest: seq<Step>)
    ensures After(st, [step] + rest) == After(if Enabled(st, step) then Apply(st, step) else st, rest)
  {
    hide Enabled, Apply;
    assert ([step] + rest)[1..] == rest;
  }

  /** The number of waiters still to be visited. */
  function Left(st: State, c: nat): int
    requires Walking(st, c)
  {
    |ListOf(st, WaitingOf(c))| - st.cpus[c].phase.kept
  }

  lemma Last(st: State, step: Step)
    ensures After(st, [step]) == if Enabled(st, step) then Apply(st, step) else st
  {
    hide Enabled, Apply;
    assert [step] == [step] + [];
    Then(st, step, []);
  }

  lemma WalkEnds(st: State, c: nat)
    requires Inv(st) && Walking(st, c) && Left(st, c) <= 0
    ensures Enabled(st, PickNext(c)) && Inv(Apply(st, PickNext(c))) && Runs(Apply(st, PickNext(c)), c)
  {
    assert CpuOk(st, c);
    hide Inv;
    PickNextKeeps(st, c);
  }

  lemma {:induction false} ChecksEnd(st: State, c: nat, ipc: seq<bool>)
    requires Inv(st) && Walking(st, c) && Left(st, c) <= |ipc|
    ensures var st' := After(st, Checks(c, ipc) + [PickNext(c)]); Inv(st') && Runs(st', c)
    decreases |ipc|
  {
    hide Inv, After, Apply, Walking, Runs;
    if ipc == [] {
      assert Checks(c, ipc) + [PickNext(c)] == [PickNext(c)];
      Last(st, PickNext(c));
      WalkEnds(st, c);
    } else {
      var rest := Checks(c, ipc[1..]) + [PickNext(c)];
      assert Checks(c, ipc) + [PickNext(c)] == [CheckNext(c, ipc[0])] + rest;
      hide Checks;
      Then(st, CheckNext(c, ipc[0]), rest);
      CheckShortens(st, c, ipc[0]);
      hide Enabled;
      ChecksEnd(if Enabled(st, CheckNext(c, ipc[0])) then Apply(st, CheckNext(c, ipc[0])) else st, c, ipc[1..]);
    }
  }

  lemma CheckShortens(st: State, c: nat, ipc: bool)
    requires Inv(st) && Walking(st, c)
    ensures var st1 := if Enabled(st, CheckNext(c, ipc)) then Apply(st, CheckNext(c, ipc)) else st;
            && Inv(st1) && Walking(st1, c) && (Left(st1, c) < Left(st, c) || Left(st1, c) <= 0)
  {
    hide Inv, Apply;
    if More(st, c) {
      VisitShortens(st, c, ipc);
    }
  }

  lemma VisitShortens(st: State, c: nat, ipc: bool)
    requires Inv(st) && More(st, c)
    ensures var st1 := Apply(st, CheckNext(c, ipc)); Inv(st1) && Walking(st1, c) && Left(st1, c) == Left(st, c) - 1
  {
    VisitIs(st, c, ipc);
    hide Inv, CheckedNext, Stays;
  }

  /** From wherever CPU c is inside schedule(), its own steps take it out again, and then a task runs. */
  lemma ScheduleEnds(st: State, c: nat, ipc: seq<bool>)
    requires Inv(st) && c in st.cpus && st.cpus[c].phase != Run && |ListOf(st, WaitingOf(c))| < |ipc|
    ensures var st' := After(st, OwnSteps(c, ipc));
            Inv(st') && Runs(st', c) && TaskOf(st', Current(st', c)).status == Running
  {
    hide Inv, After, Apply, Enabled, Checks;
    var rest := Checks(c, ipc) + [PickNext(c)];
    assert OwnSteps(c, ipc) == [SwitchOut(c)] + ([Inform(c)] + rest);
    Then(st, SwitchOut(c), [Inform(c)] + rest);
    var st1 := if Enabled(st, SwitchOut(c)) then Apply(st, SwitchOut(c)) else st;
    OutLeads(st, c);
    Then(st1, Inform(c), rest);
    var st2 := if Enabled(st1, Inform(c)) then Apply(st1, Inform(c)) else st1;
    DyingLeads(st1, c);
    ChecksEnd(st2, c, ipc);
    RunningOne(After(st, OwnSteps(c, ipc)), c);
  }

  lemma RunningOne(st: State, c: nat)
    requires Inv(st) && Runs(st, c)
    ensures TaskOf(st, Current(st, c)).status == Running
  {
    assert CpuOk(st, c);
  }

  lemma OutLeads(st: State, c: nat)
    requires Inv(st) && c in st.cpus && st.cpus[c].phase != Run
    ensures var st1 := if Enabled(st, SwitchOut(c)) then Apply(st, SwitchOut(c)) else st;
            && Inv(st1) && c in st1.cpus && (st1.cpus[c].phase.Dying? || st1.cpus[c].phase.Check?)
            && |ListOf(st1, WaitingOf(c))| <= |ListOf(st, WaitingOf(c))| + 1
  {
    if Enabled(st, SwitchOut(c)) {
      SwitchOutKeeps(st, c);
      assert CpuOk(st, c);
      hide Inv, InsertPos, Before;
    }
  }

  lemma DyingLeads(st: State, c: nat)
    requires Inv(st) && c in st.cpus && (st.cpus[c].phase.Dying? || st.cpus[c].phase.Check?)
    ensures var st1 := if Enabled(st, Inform(c)) then Apply(st, Inform(c)) else st;
            && Inv(st1) && Walking(st1, c) && Left(st1, c) <= |ListOf(st, WaitingOf(c))|
  {
    if Enabled(st, Inform(c)) {
      InformKeeps(st, c);
      hide Inv;
    }
  }
}
