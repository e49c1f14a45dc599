/**
 Virtual run times: each tick adds to the running task's clock at a rate inverse to its weight, and drags a
 task that has fallen behind its CPU's minimum up to it.
 */
module VrunTime {
  import opened Words

  const NICE0_WEIGHT: Word := 1024

  /** The weights of priorities 0 to 39. */
  const PRIO_TO_WEIGHT: seq<Word> := [
    88761, 71755, 56483, 46273, 36291, 29154, 23254, 18705, 14949, 11916,
    9548, 7620, 6100, 4904, 3906, 3121, 2501, 1991, 1586, 1277,
    1024, 820, 655, 526, 423, 335, 272, 215, 172, 137,
    110, 87, 70, 56, 45, 36, 29, 23, 18, 15
  ]

  const PRIOS: nat := 40

  function WeightOf(prio: nat): (w: Word)
    requires prio < PRIOS
    ensures 15 <= w <= 88761
  {
    PRIO_TO_WEIGHT[prio]
  }

  /** Priority 0 weighs 1024, and one step of priority is worth about a quarter more. */
  lemma WeightSteps(prio: nat)
    requires prio + 1 < PRIOS
    ensures 6 * WeightOf(prio + 1) <= 5 * WeightOf(prio) && 100 * WeightOf(prio) <= 128 * WeightOf(prio + 1)
    ensures WeightOf(20) == NICE0_WEIGHT
  {
  }

  /** MAX_VRUNTIME, with its wrapping subtraction read as a signed number. */
  function MaxVrun(a: Word, b: Word): Word {
    if Signed(Wrap(a - b)) > 0 then a else b
  }

  lemma MaxVrunIsMax(a: Word, b: Word)
    requires a < TWO_63 && b < TWO_63
    ensures MaxVrun(a, b) == if a > b then a else b
  {
  }

  /** A task's clock: ticks charged and the virtual time they stand for. */
  datatype Clock = Clock(run: Word, vrun: Word)

  function ToVrun(run: Word, weight: Word): Word
    requires weight > 0
  {
    Wrap(run * NICE0_WEIGHT) / weight
  }

  function ToRun(vrun: Word, weight: Word): Word {
    Wrap(vrun * weight) / NICE0_WEIGHT
  }

  /** update_vrun_time, on values. */
  function Updated(run: Word, least: Word, weight: Word): Clock
    requires weight > 0
  {
    var v := ToVrun(run, weight);
    var v' := MaxVrun(v, least);
    Clock(if v' != v then ToRun(v', weight) else run, v')
  }

  class Task {
    const weight: Word
    var runTime: Word
    var vrunTime: Word

    constructor (weight: Word)
      ensures this.weight == weight && Time() == Clock(0, 0)
    {
      this.weight := weight;
      runTime, vrunTime := 0, 0;
    }

    ghost function Time(): Clock
      reads this
    {
      Clock(runTime, vrunTime)
    }
  }

  class TaskMan {
    var minVrunTime: Word

    constructor ()
      ensures minVrunTime == 0
    {
      minVrunTime := 0;
    }

    method UpdateMinVrunTime(vrunTime: Word)
      modifies this
      ensures minVrunTime == MaxVrun(old(minVrunTime), vrunTime)
    {
      minVrunTime := MaxVrun(minVrunTime, vrunTime);
    }

    method UpdateVrunTime(task: Task)
      requires task.weight > 0
      modifies this, task
      ensures task.Time() == Updated(old(task.runTime), old(minVrunTime), task.weight)
      ensures minVrunTime == MaxVrun(old(minVrunTime), task.vrunTime)
    {
      hide Wrap, Signed;
      var vrunTime := ToVrun(task.runTime, task.weight);
      task.vrunTime := MaxVrun(vrunTime, minVrunTime);
      if task.vrunTime != vrunTime {
        task.runTime := ToRun(task.vrunTime, task.weight);
      }
      UpdateMinVrunTime(task.vrunTime);
    }

    /** One tick of the running task. */
    method TaskUpdate(task: Task)
      requires task.weight > 0
      modifies this, task
      ensures var (c, least) := Ticked(old(task.Time()), old(minVrunTime), task.weight);
              task.Time() == c && minVrunTime == least
    {
      hide Wrap, Signed, Updated, MaxVrun;
      task.runTime := Wrap(task.runTime + 1);
      UpdateVrunTime(task);
    }
  }

  /** One tick, on values: the new clock and the CPU's new minimum. */
  function Ticked(c: Clock, least: Word, weight: Word): (Clock, Word)
    requires weight > 0
  {
    var c' := Updated(Wrap(c.run + 1), least, weight);
    (c', MaxVrun(least, c'.vrun))
  }

  // ---------------------------------------------------------------- rounding

  /** ceil(1024 / weight): one tick's worth of virtual time, rounded up. */
  function TickWorth(weight: nat): nat
    requires weight > 0
  {
    (1024 + weight - 1) / weight
  }

  lemma DivBounds(x: nat, w: nat, q: int)
    requires w > 0
    ensures q * w <= x ==> q <= x / w
    ensures x < (q + 1) * w ==> x / w <= q
  {
    var d := x / w - q;
    assert d * w == x / w * w - q * w == x - x % w - q * w;
    assert d <= -1 ==> d * w <= -1 * w;
    assert d >= 1 ==> d * w >= w;
  }

  /** The virtual time that `run` ticks stand for, and the ticks that a virtual time is rewritten to. */
  function VrunOf(run: nat, weight: nat): nat
    requires weight > 0
  {
    run * 1024 / weight
  }

  function RunOf(vrun: nat, weight: nat): nat {
    vrun * weight / 1024
  }

  /**
   Rewriting the charged ticks after a clamp to v loses less than one tick: the ticks map back to at most
   TickWorth below v, never above, and one tick more maps to at least v.
   */
  lemma ClampRoundTrip(v: nat, weight: nat)
    requires weight > 0
    ensures var run := RunOf(v, weight);
            && v - TickWorth(weight) <= VrunOf(run, weight) <= v <= VrunOf(run + 1, weight)
  {
    var run := v * weight / 1024;
    assert run * 1024 <= v * weight < (run + 1) * 1024;
    DivBounds(run * 1024, weight, v);
    assert run * 1024 / weight <= v by {
      assert (v + 1) * weight == v * weight + weight;
    }
    DivBounds((run + 1) * 1024, weight, v);
    TicksPerWorth(weight);
    var d := TickWorth(weight);
    assert (v - d) * weight == v * weight - d * weight;
    DivBounds(run * 1024, weight, v - d);
  }

  lemma TicksPerWorth(weight: nat)
    requires weight > 0
    ensures TickWorth(weight) * weight >= 1024 >= TickWorth(weight)
  {
    var x, d := 1024 + weight - 1, TickWorth(weight);
    assert x == d * weight + x % weight;
    assert 1025 * weight == 1024 * weight + weight && 1024 * weight >= 1024;
    DivBounds(x, weight, 1024);
  }

  lemma VrunBelow(run: nat, weight: nat)
    requires weight > 0
    ensures VrunOf(run, weight) * weight <= run * 1024 < (VrunOf(run, weight) + 1) * weight
  {
    assert run * 1024 == VrunOf(run, weight) * weight + run * 1024 % weight;
  }

  /** One tick adds at most TickWorth, and never takes away. */
  lemma OneTick(run: nat, weight: nat)
    requires weight > 0
    ensures VrunOf(run, weight) <= VrunOf(run + 1, weight) <= VrunOf(run, weight) + TickWorth(weight)
  {
    var q, d := VrunOf(run, weight), TickWorth(weight);
    VrunBelow(run, weight);
    TicksPerWorth(weight);
    assert (q + d + 1) * weight == (q + 1) * weight + d * weight;
    DivBounds((run + 1) * 1024, weight, q + d);
    DivBounds((run + 1) * 1024, weight, q);
  }

  // ---------------------------------------------------------------- one tick without overflow

  /** A clock that is consistent with its CPU: it shows no more than the minimum, and its ticks map to no more. */
  ghost predicate Behind(c: Clock, least: Word, weight: Word) {
    weight > 0 && c.vrun <= least && VrunOf(c.run, weight) <= c.vrun
  }

  /** Small enough for every product in a tick. */
  ghost predicate Fits(least: Word, weight: Word) {
    least < 0x2000_0000_0000 && weight < 0x2_0000
  }

  lemma Product(a: nat, b: nat, c: nat, d: nat)
    requires a <= b && c <= d
    ensures a * c <= b * d
  {
    assert b * d - a * c == b * (d - c) + (b - a) * c;
  }

  lemma TickProducts(c: Clock, least: Word, weight: Word)
    requires Behind(c, least, weight) && Fits(least, weight)
    ensures (c.run + 1) * 1024 < TWO_63 && least * weight < TWO_63
  {
    hide VrunOf;
    VrunBelow(c.run, weight);
    Product(VrunOf(c.run, weight) + 1, 0x2000_0000_0000, weight, 0x2_0000);
    Product(least, 0x2000_0000_0000, weight, 0x2_0000);
  }

  lemma NoWrap(run: Word, vrun: Word, weight: Word)
    requires weight > 0 && run * 1024 < TWO_63 && vrun * weight < TWO_63
    ensures ToVrun(run, weight) == VrunOf(run, weight) && ToRun(vrun, weight) == RunOf(vrun, weight)
  {
    WrapSmall(run * 1024);
    WrapSmall(vrun * weight);
  }

  /**
   A tick without overflow: the task shows its exact time or the minimum, whichever is later; that becomes
   the new minimum, which never falls; and the clock is again consistent, with at most one tick lost.
   */
  lemma TickExact(c: Clock, least: Word, weight: Word)
    requires Behind(c, least, weight) && Fits(least, weight)
    ensures var v, (c', least') := VrunOf(c.run + 1, weight), Ticked(c, least, weight);
            && c'.vrun == (if v > least then v else least) && least' == c'.vrun && least <= least'
            && least' <= least + TickWorth(weight) && Behind(c', least', weight)
            && c'.run == (if v < least then RunOf(least, weight) else c.run + 1)
            && c'.vrun - TickWorth(weight) <= VrunOf(c'.run, weight)
            && c'.vrun <= VrunOf(c'.run + 1, weight)
  {
    hide Wrap, MaxVrun, TickWorth, VrunOf, RunOf, ToVrun, ToRun;
    TickProducts(c, least, weight);
    var run, v := c.run + 1, VrunOf(c.run + 1, weight);
    WrapSmall(run);
    NoWrap(run, least, weight);
    OneTick(c.run, weight);
    OneTick(run, weight);
    TicksPerWorth(weight);
    MaxVrunIsMax(v, least);
    MaxVrunIsMax(least, MaxVrun(v, least));
    ClampRoundTrip(least, weight);
  }

  // ---------------------------------------------------------------- whole runs

  /** One CPU: its minimum, its tasks' clocks and weights, and the ticks so far. */
  datatype Cpu = Cpu(least: Word, clocks: map<nat, Clock>, weights: map<nat, Word>, ticks: nat)

  /** A task starts with a weight, or the running task p ticks; the idle task is one of the tasks. */
  datatype Event = Begin(p: nat, weight: Word) | Tick(p: nat)

  /** A weight of the table, or the idle task's, which is some positive number of the same range. */
  predicate Weighs(weight: Word) {
    0 < weight < 0x2_0000
  }

  lemma TableWeighs(prio: nat)
    requires prio < PRIOS
    ensures Weighs(WeightOf(prio))
  {
  }

  predicate Enabled(s: Cpu, e: Event) {
    match e
    case Begin(p, weight) => p !in s.clocks && p !in s.weights && Weighs(weight)
    case Tick(p) => p in s.clocks && p in s.weights && s.weights[p] > 0
  }

  function Apply(s: Cpu, e: Event): Cpu
    requires Enabled(s, e)
  {
    match e
    case Begin(p, weight) => s.(clocks := s.clocks[p := Clock(0, 0)], weights := s.weights[p := weight])
    case Tick(p) =>
      var (c, least) := Ticked(s.clocks[p], s.least, s.weights[p]);
      Cpu(least, s.clocks[p := c], s.weights, s.ticks + 1)
  }

  function Run(s: Cpu, es: seq<Event>): Cpu
    decreases |es|
  {
    if es == [] then s else Run(if Enabled(s, es[0]) then Apply(s, es[0]) else s, es[1..])
  }

  /** A tick is worth at most 1024; fewer than 2^35 ticks keep every product within a word. */
  const MOST_WORTH: nat := 1024
  const MANY_TICKS: nat := 0x8_0000_0000

  ghost predicate Inv(s: Cpu) {
    && s.least <= MOST_WORTH * s.ticks && s.clocks.Keys == s.weights.Keys
    && forall p {:trigger s.clocks[p]} :: p in s.clocks ==>
        Weighs(s.weights[p]) && Behind(s.clocks[p], s.least, s.weights[p])
  }

  lemma BeginKeeps(s: Cpu, p: nat, weight: Word)
    requires Inv(s) && Enabled(s, Begin(p, weight))
    ensures Inv(Apply(s, Begin(p, weight)))
  {
    hide VrunOf;
    NothingCharged(weight);
  }

  lemma NothingCharged(weight: nat)
    requires weight > 0
    ensures VrunOf(0, weight) == 0
  {
  }

  lemma StillBehind(c: Clock, least: Word, least': Word, weight: Word)
    requires Behind(c, least, weight) && least <= least'
    ensures Behind(c, least', weight)
  {
    hide VrunOf;
  }

  lemma TickKeeps(s: Cpu, p: nat)
    requires Inv(s) && p in s.clocks && s.ticks < MANY_TICKS
    ensures Enabled(s, Tick(p)) && Inv(Apply(s, Tick(p)))
    ensures s.least <= Apply(s, Tick(p)).least == Apply(s, Tick(p)).clocks[p].vrun
  {
    hide VrunOf, Ticked, TickWorth, Behind;
    assert Behind(s.clocks[p], s.least, s.weights[p]);
    TickExact(s.clocks[p], s.least, s.weights[p]);
    TicksPerWorth(s.weights[p]);
    var s' := Apply(s, Tick(p));
    forall q {:trigger s'.clocks[q]} | q in s'.clocks
      ensures Weighs(s'.weights[q]) && Behind(s'.clocks[q], s'.least, s'.weights[q])
    {
      if q != p {
        assert Behind(s.clocks[q], s.least, s.weights[q]);
        StillBehind(s.clocks[q], s.least, s'.least, s.weights[q]);
      }
    }
  }

  lemma ApplyTicks(s: Cpu, e: Event)
    requires Enabled(s, e)
    ensures Apply(s, e).ticks <= s.ticks + 1
  {
  }

  lemma {:induction false} RunKeeps(s: Cpu, es: seq<Event>)
    requires Inv(s) && s.ticks + |es| <= MANY_TICKS
    ensures Inv(Run(s, es)) && s.least <= Run(s, es).least
    decreases |es|
  {
    hide Inv, Apply;
    if es != [] {
      if Enabled(s, es[0]) {
        ApplyTicks(s, es[0]);
        StepKeeps(s, es[0]);
        RunKeeps(Apply(s, es[0]), es[1..]);
      } else {
        RunKeeps(s, es[1..]);
      }
    }
  }

  lemma StepKeeps(s: Cpu, e: Event)
    requires Inv(s) && Enabled(s, e) && s.ticks < MANY_TICKS
    ensures Inv(Apply(s, e)) && s.least <= Apply(s, e).least
  {
    hide Inv;
    match e
    case Begin(p, weight) => BeginKeeps(s, p, weight);
    case Tick(p) => TickKeeps(s, p);
  }

  const Boot: Cpu := Cpu(0, map[], map[], 0)

  /** The products of a tick of p fit a word, so that the code computes them exactly. */
  ghost predicate NoOverflow(s: Cpu, p: nat)
    requires p in s.clocks && p in s.weights
  {
    (s.clocks[p].run + 1) * NICE0_WEIGHT < TWO_64 && s.least * s.weights[p] < TWO_64
  }

  /**
   In every run of fewer than 2^35 events from a CPU's start, its idle task included: no product of a tick
   overflows, the minimum never falls, and no virtual time exceeds it, so that all of them lie in one window far
   narrower than 2^63.
   */
  lemma TimesStayInWindow(es: seq<Event>, more: seq<Event>)
    requires |es| + |more| < MANY_TICKS
    ensures var s := Run(Boot, es);
            && s.least <= Run(s, more).least && s.least < 0x2000_0000_0000
            && s.clocks.Keys == s.weights.Keys
            && forall p {:trigger s.clocks[p]} :: p in s.clocks ==> s.clocks[p].vrun <= s.least && NoOverflow(s, p)
  {
    assert Inv(Boot);
    RunKeeps(Boot, es);
    RunTicks(Boot, es);
    var s := Run(Boot, es);
    RunKeeps(s, more);
    hide VrunOf, Run;
    forall p {:trigger s.clocks[p]} | p in s.clocks
      ensures s.clocks[p].vrun <= s.least && NoOverflow(s, p)
    {
      TickProducts(s.clocks[p], s.least, s.weights[p]);
    }
  }

  lemma {:induction false} RunTicks(s: Cpu, es: seq<Event>)
    ensures Run(s, es).ticks <= s.ticks + |es|
    decreases |es|
  {
    if es != [] {
      RunTicks(if Enabled(s, es[0]) then Apply(s, es[0]) else s, es[1..]);
    }
  }
}
