/**
 The scheduler with its clocks: each tick gives the running task the virtual run time that task_update computes.
 For fewer than 2^35 steps all times then lie in one window, so that the ready lists are in order of time.
 */
module SchedulerTimes {
  import opened Words
  import opened Scheduler
  import opened SchedulerSteps
  import opened SchedulerInvariant
  import opened SchedulerRuns
  import opened SchedulerOrder
  import opened SchedulerEffects
  import V = VrunTime

  /** Every task's clock and every CPU's minimum. */
  datatype Times = Times(clocks: map<nat, V.Clock>, least: map<nat, Word>)

  const NoTimes: Times := Times(map[], map[])
  const Zero: V.Clock := V.Clock(0, 0)

  function ClockOf(ts: Times, p: nat): V.Clock {
    if p in ts.clocks then ts.clocks[p] else Zero
  }

  function LeastOf(ts: Times, c: nat): Word {
    if c in ts.least then ts.least[c] else 0
  }

  /** The clock of CPU c's running task and c's minimum after task_update. */
  function TickOf(st: State, ts: Times, c: nat): (V.Clock, Word)
    requires TaskOf(st, Current(st, c)).weight > 0
  {
    V.Ticked(ClockOf(ts, Current(st, c)), LeastOf(ts, c), TaskOf(st, Current(st, c)).weight)
  }

  /**
   Tasks start with a weight of the table or the idle task's, and a tick brings the time that task_update computes.
   */
  predicate Exact(st: State, ts: Times, step: Step) {
    match step
    case StartCpu(_, _, _, _, w, wIdle) => V.Weighs(w) && V.Weighs(wIdle)
    case Spawn(_, _, w) => V.Weighs(w)
    case Tick(c, v) => TaskOf(st, Current(st, c)).weight > 0 ==> v == TickOf(st, ts, c).0.vrun
    case _ => true
  }

  function Advance(st: State, ts: Times, step: Step): Times {
    match step
    case StartCpu(c, main, idle, _, _, _) => Times(ts.clocks[main := Zero][idle := Zero], ts.least[c := 0])
    case Spawn(_, p, _) => ts.(clocks := ts.clocks[p := Zero])
    case Tick(c, _) =>
      if TaskOf(st, Current(st, c)).weight == 0 then ts
      else
        var (k, l) := TickOf(st, ts, c);
        Times(ts.clocks[Current(st, c) := k], ts.least[c := l])
    case _ => ts
  }

  ghost predicate ClockOk(st: State, ts: Times, p: nat) {
    p in st.tasks ==>
      V.Weighs(st.tasks[p].weight) && V.Behind(ClockOf(ts, p), LeastOf(ts, st.tasks[p].cpu), st.tasks[p].weight)
  }

  /** After n steps. */
  ghost predicate TimesOk(st: State, ts: Times, n: nat) {
    (forall p :: ClockOk(st, ts, p)) && forall c :: LeastOf(ts, c) <= V.MOST_WORTH * n
  }

  lemma FreshClock(w: Word)
    requires V.Weighs(w)
    ensures V.Behind(Zero, 0, w) && forall least: Word :: V.Behind(Zero, least, w)
  {
    V.NothingCharged(w);
    hide V.VrunOf;
  }

  /** The steps that neither start a task nor tick. */
  lemma QuietTimes(st: State, st': State, ts: Times, step: Step, n: nat)
    requires TimesOk(st, ts, n) && KeepsSelves(st, st', step) && !step.StartCpu? && !step.Spawn?
    ensures TimesOk(st', ts, n + 1)
  {
    hide V.Behind, ClockOf, LeastOf;
    forall p
      ensures ClockOk(st', ts, p)
    {
      assert ClockOk(st, ts, p);
    }
  }

  lemma SpawnTimes(st: State, st': State, ts: Times, step: Step, n: nat)
    requires TimesOk(st, ts, n) && KeepsSelves(st, st', step) && step.Spawn? && V.Weighs(step.w)
    ensures TimesOk(st', Advance(st, ts, step), n + 1)
  {
    hide V.Behind;
    FreshClock(step.w);
    forall p
      ensures ClockOk(st', Advance(st, ts, step), p)
    {
      assert ClockOk(st, ts, p);
    }
    var ts' := Advance(st, ts, step);
    forall c
      ensures LeastOf(ts', c) <= V.MOST_WORTH * (n + 1)
    {
      assert LeastOf(ts, c) <= V.MOST_WORTH * n;
    }
  }

  lemma StartTimes(st: State, st': State, ts: Times, step: Step, n: nat)
    requires TimesOk(st, ts, n) && KeepsSelves(st, st', step) && step.StartCpu? && V.Weighs(step.w) &&
             V.Weighs(step.wIdle)
    requires forall p :: p in st.tasks ==> st.tasks[p].cpu != step.c
    ensures TimesOk(st', Advance(st, ts, step), n + 1)
  {
    hide V.Behind;
    FreshClock(step.w);
    FreshClock(step.wIdle);
    var ts' := Advance(st, ts, step);
    forall p
      ensures ClockOk(st', ts', p)
    {
      assert ClockOk(st, ts, p);
    }
    forall c
      ensures LeastOf(ts', c) <= V.MOST_WORTH * (n + 1)
    {
      assert LeastOf(ts, c) <= V.MOST_WORTH * n;
    }
  }

  lemma TickFits(ts: Times, p: nat, c: nat, w: Word, n: nat)
    requires V.Weighs(w) && V.Behind(ClockOf(ts, p), LeastOf(ts, c), w)
    requires LeastOf(ts, c) <= V.MOST_WORTH * n && n < V.MANY_TICKS
    ensures var (k, l) := V.Ticked(ClockOf(ts, p), LeastOf(ts, c), w);
            && V.Behind(k, l, w) && k.vrun == l && LeastOf(ts, c) <= l <= V.MOST_WORTH * (n + 1)
  {
    V.TickExact(ClockOf(ts, p), LeastOf(ts, c), w);
    V.TicksPerWorth(w);
    hide V.Behind, V.Ticked, V.TickWorth, V.VrunOf;
  }

  lemma TickTimes(st: State, st': State, ts: Times, c: nat, v: Word, n: nat)
    requires TimesOk(st, ts, n) && KeepsSelves(st, st', Tick(c, v)) && n < V.MANY_TICKS
    requires Current(st, c) in st.tasks && st.tasks[Current(st, c)].cpu == c && Exact(st, ts, Tick(c, v))
    ensures TimesOk(st', Advance(st, ts, Tick(c, v)), n + 1) && v < TWO_63
  {
    hide V.Behind, V.Ticked, ClockOf, LeastOf;
    var p, ts' := Current(st, c), Advance(st, ts, Tick(c, v));
    assert ClockOk(st, ts, p);
    TickFits(ts, p, c, st.tasks[p].weight, n);
    Looked(ts, p, TickOf(st, ts, c).0, c, TickOf(st, ts, c).1);
    forall q
      ensures ClockOk(st', ts', q)
    {
      assert ClockOk(st, ts, q);
      if q in st.tasks && st.tasks[q].cpu == c {
        V.StillBehind(ClockOf(ts, q), LeastOf(ts, c), TickOf(st, ts, c).1, st.tasks[q].weight);
      }
    }
  }

  lemma Looked(ts: Times, p: nat, k: V.Clock, c: nat, l: Word)
    ensures var ts' := Times(ts.clocks[p := k], ts.least[c := l]);
            && (forall q :: ClockOf(ts', q) == if q == p then k else ClockOf(ts, q))
            && (forall d :: LeastOf(ts', d) == if d == c then l else LeastOf(ts, d))
  {
  }

  /** Every step keeps the clocks, and the times that it brings in lie in the window above 0. */
  lemma StepTimes(st: State, ts: Times, step: Step, n: nat)
    requires Inv(st) && Enabled(st, step) && TimesOk(st, ts, n) && n < V.MANY_TICKS && Exact(st, ts, step)
    ensures TimesOk(Apply(st, step), Advance(st, ts, step), n + 1) && Timely(0, step)
  {
    StepEffect(st, step, step.c);
    match step
    case StartCpu(c, _, _, _, _, _) =>
      forall p | p in st.tasks
        ensures st.tasks[p].cpu != c
      {
        assert TaskOk(st, p);
      }
      hide Inv, TimesOk, KeepsSelves, Apply, Advance;
      StartTimes(st, Apply(st, step), ts, step, n);
    case Spawn(_, _, _) =>
      hide Inv, TimesOk, KeepsSelves, Apply, Advance;
      SpawnTimes(st, Apply(st, step), ts, step, n);
    case Tick(c, v) =>
      assert CpuOk(st, c);
      hide Inv, TimesOk, KeepsSelves, Apply, Advance;
      TickTimes(st, Apply(st, step), ts, c, v, n);
      WrapSmall(v);
    case _ =>
      hide Inv, TimesOk, KeepsSelves, Apply;
      QuietTimes(st, Apply(st, step), ts, step, n);
  }

  ghost predicate AllExact(st: State, ts: Times, steps: seq<Step>)
    decreases |steps|
  {
    steps == [] ||
      if Enabled(st, steps[0]) then
        Exact(st, ts, steps[0]) && AllExact(Apply(st, steps[0]), Advance(st, ts, steps[0]), steps[1..])
      else AllExact(st, ts, steps[1..])
  }

  lemma {:induction false} RunTimes(st: State, ts: Times, steps: seq<Step>, n: nat)
    requires Inv(st) && Ordered(st, 0) && TimesOk(st, ts, n) && AllExact(st, ts, steps) && n + |steps| <= V.MANY_TICKS
    ensures Inv(After(st, steps)) && Ordered(After(st, steps), 0)
    decreases |steps|
  {
    hide Inv, Ordered, Enabled, Apply, Timely, TimesOk, Exact, Advance;
    if steps != [] {
      if Enabled(st, steps[0]) {
        StepKeeps(st, steps[0]);
        StepTimes(st, ts, steps[0], n);
        StepOrdered(st, 0, steps[0]);
        RunTimes(Apply(st, steps[0]), Advance(st, ts, steps[0]), steps[1..], n + 1);
      } else {
        RunTimes(st, ts, steps[1..], n);
      }
    }
  }

  /**
   In every run of at most 2^35 steps: the task picked from a nonempty ready list is the one at its front, and its
   virtual run time is the least of the list.
   */
  lemma LeastTimeRuns(steps: seq<Step>, c: nat, q: nat)
    requires |steps| <= V.MANY_TICKS && AllExact(Boot, NoTimes, steps)
    requires Enabled(After(Boot, steps), PickNext(c)) && q in ListOf(After(Boot, steps), ReadyOf(c))
    ensures var st := After(Boot, steps);
            var next := Current(Picked(st, c), c);
            next == ListOf(st, ReadyOf(c))[0] && TaskOf(st, next).vrun <= TaskOf(st, q).vrun
  {
    BootInv();
    assert TimesOk(Boot, NoTimes, 0) && Ordered(Boot, 0);
    RunTimes(Boot, NoTimes, steps, 0);
    hide AllExact, After, Inv, Ordered;
    var st := After(Boot, steps);
    HeadIsLeast(st, 0, c, q);
    hide Picked, Enabled;
    WrapSmall(TaskOf(st, q).vrun);
    WrapSmall(TaskOf(st, ListOf(st, ReadyOf(c))[0]).vrun);
  }
}
