/**
 The order of the ready lists. Virtual run times are compared by a wrapping subtraction read as a signed number,
 which orders them as long as all of them lie in one window narrower than 2^63.
 */
module SchedulerOrder {
  import opened Words
  import opened Scheduler
  import opened SchedulerSteps
  import opened SchedulerLists
  import opened SchedulerInvariant
  import opened SchedulerSafety
  import opened SchedulerExit
  import opened SchedulerRuns

  /** How far v lies above the window's lower end. */
  function Above(base: Word, v: Word): Word {
    Wrap(v - base)
  }

  predicate InWindow(base: Word, v: Word) {
    Above(base, v) < TWO_63
  }

  lemma BeforeIsLess(base: Word, a: Word, b: Word)
    requires InWindow(base, a) && InWindow(base, b)
    ensures Before(a, b) <==> Above(base, a) < Above(base, b)
  {
  }

  ghost predicate AllWithin(base: Word, s: set<Word>) {
    forall v :: v in s ==> InWindow(base, v)
  }

  ghost predicate OneWindow(s: set<Word>) {
    exists base: Word :: AllWithin(base, s)
  }

  /** The comparison orders the times of s: it is asymmetric, total and transitive on them. */
  ghost predicate IsOrder(s: set<Word>) {
    && (forall a, b :: a in s && b in s && Before(a, b) ==> !Before(b, a))
    && (forall a, b :: a in s && b in s ==> a == b || Before(a, b) || Before(b, a))
    && (forall a, b, c :: a in s && b in s && c in s && Before(a, b) && Before(b, c) ==> Before(a, c))
  }

  lemma AboveTellsApart(base: Word, a: Word, b: Word)
    requires Above(base, a) == Above(base, b)
    ensures a == b
  {
  }

  lemma WindowIsOrder(s: set<Word>, base: Word)
    requires AllWithin(base, s)
    ensures IsOrder(s)
  {
    hide Before, Above;
    forall a, b | a in s && b in s
      ensures (Before(a, b) <==> Above(base, a) < Above(base, b)) && (Above(base, a) == Above(base, b) ==> a == b)
    {
      BeforeIsLess(base, a, b);
      if Above(base, a) == Above(base, b) {
        AboveTellsApart(base, a, b);
      }
    }
  }

  lemma {:induction false} LeastTime(s: set<Word>) returns (m: Word)
    requires s != {} && IsOrder(s)
    ensures m in s && forall v :: v in s && v != m ==> Before(m, v)
    decreases |s|
  {
    hide Before;
    m :| m in s;
    var rest := s - {m};
    if rest != {} {
      var m' := LeastTime(rest);
      m := if Before(m, m') then m else m';
    }
  }

  /** What is not before m lies in the window that starts at m. */
  lemma NotBeforeIsAbove(m: Word, v: Word)
    ensures InWindow(m, v) <==> !Before(v, m)
  {
  }

  /** The comparison orders a set of times if and only if they all lie in one window narrower than 2^63. */
  lemma OrderIffWindow(s: set<Word>)
    ensures IsOrder(s) <==> OneWindow(s)
  {
    if OneWindow(s) {
      var base: Word :| AllWithin(base, s);
      WindowIsOrder(s, base);
    }
    if IsOrder(s) {
      var m: Word := 0;
      if s != {} {
        m := LeastTime(s);
      }
      forall v | v in s
        ensures InWindow(m, v)
      {
        NotBeforeIsAbove(m, v);
        NotBeforeIsAbove(m, m);
        hide Before, Above;
      }
      assert AllWithin(m, s);
    }
  }

  /** Three times that lie in no window: each is before the next, and the last before the first. */
  lemma NoOrderWithoutWindow()
    ensures var (a: Word, b: Word, c: Word) := (0, 0x6000_0000_0000_0000, 0xC000_0000_0000_0000);
            Before(a, b) && Before(b, c) && Before(c, a) && !OneWindow({a, b, c})
  {
    var a: Word, b: Word, c: Word := 0, 0x6000_0000_0000_0000, 0xC000_0000_0000_0000;
    assert Before(a, b) && Before(b, c) && Before(c, a) && !Before(a, c);
    OrderIffWindow({a, b, c});
  }

  function TimeOf(st: State, base: Word, p: nat): Word {
    Above(base, TaskOf(st, p).vrun)
  }

  ghost predicate Sorted(st: State, base: Word, s: seq<nat>) {
    forall i, j :: 0 <= i < j < |s| ==> TimeOf(st, base, s[i]) <= TimeOf(st, base, s[j])
  }

  ghost predicate TimesFit(st: State, base: Word) {
    forall p :: p in st.tasks ==> InWindow(base, st.tasks[p].vrun)
  }

  ghost predicate Ordered(st: State, base: Word) {
    TimesFit(st, base) && forall c :: Sorted(st, base, ListOf(st, ReadyOf(c)))
  }

  /** A task enters after all that are not later, and before all that are later: first come among equals. */
  lemma InsertPlace(st: State, base: Word, s: seq<nat>, v: Word)
    requires Sorted(st, base, s) && InWindow(base, v) && TimesFit(st, base) && forall p :: p in s ==> p in st.tasks
    ensures var i := InsertPos(st, s, v);
            && (forall k :: 0 <= k < i ==> TimeOf(st, base, s[k]) <= Above(base, v))
            && (forall k :: i <= k < |s| ==> Above(base, v) < TimeOf(st, base, s[k]))
  {
    hide Before, Above;
    var i := InsertPos(st, s, v);
    forall k | 0 <= k < |s|
      ensures k < i ==> TimeOf(st, base, s[k]) <= Above(base, v)
      ensures k == i ==> Above(base, v) < TimeOf(st, base, s[k])
    {
      assert s[k] in s;
      BeforeIsLess(base, v, TaskOf(st, s[k]).vrun);
    }
  }

  lemma SpliceSorted(st: State, base: Word, s: seq<nat>, i: nat, p: nat)
    requires Sorted(st, base, s) && i <= |s|
    requires forall k :: 0 <= k < i ==> TimeOf(st, base, s[k]) <= TimeOf(st, base, p)
    requires forall k :: i <= k < |s| ==> TimeOf(st, base, p) < TimeOf(st, base, s[k])
    ensures Sorted(st, base, s[..i] + [p] + s[i..])
  {
    hide TimeOf;
    var s' := s[..i] + [p] + s[i..];
    forall j, k | 0 <= j < k < |s'|
      ensures TimeOf(st, base, s'[j]) <= TimeOf(st, base, s'[k])
    {
      assert j != i && k != i ==> s'[j] == s[if j < i then j else j - 1] && s'[k] == s[if k < i then k else k - 1];
    }
  }

  lemma SortedSame(st: State, st': State, base: Word, s: seq<nat>)
    requires Sorted(st, base, s) && forall p :: p in s ==> TaskOf(st', p).vrun == TaskOf(st, p).vrun
    ensures Sorted(st', base, s)
  {
    hide Above;
    assert forall i :: 0 <= i < |s| ==> s[i] in s && TimeOf(st', base, s[i]) == TimeOf(st, base, s[i]);
  }

  lemma InsertSorted(st: State, base: Word, p: nat)
    requires Listed(st) && Ordered(st, base) && p in st.tasks && st.tasks[p].place == Nowhere
    ensures Ordered(Inserted(st, st.tasks[p].cpu, p), base)
  {
    var c := st.tasks[p].cpu;
    var s, st' := ListOf(st, ReadyOf(c)), Inserted(st, st.tasks[p].cpu, p);
    assert Holds(st, ReadyOf(c)) && Sorted(st, base, s);
    InsertedIs(st, p);
    InsertPlace(st, base, s, st.tasks[p].vrun);
    var i := InsertPos(st, s, st.tasks[p].vrun);
    hide Inserted, Wrap, Listed, Holds, Above, InsertPos;
    SpliceSorted(st, base, s, i, p);
    forall d
      ensures Sorted(st', base, ListOf(st', ReadyOf(d)))
    {
      assert Sorted(st, base, ListOf(st, ReadyOf(d)));
      hide Sorted;
      SortedSame(st, st', base, if d == c then s[..i] + [p] + s[i..] else ListOf(st, ReadyOf(d)));
    }
  }

  /** The ready lists only lose elements, and times do not change. */
  lemma OrderedSame(st: State, st': State, base: Word)
    requires Ordered(st, base) && TimesFit(st', base)
    requires forall c, p :: p in ListOf(st', ReadyOf(c)) ==> TaskOf(st', p).vrun == TaskOf(st, p).vrun
    requires forall c :: ListOf(st', ReadyOf(c)) == ListOf(st, ReadyOf(c))
                         || (ListOf(st, ReadyOf(c)) != [] && ListOf(st', ReadyOf(c)) == ListOf(st, ReadyOf(c))[1..])
    ensures Ordered(st', base)
  {
    hide Above;
    forall c
      ensures Sorted(st', base, ListOf(st', ReadyOf(c)))
    {
      assert Sorted(st, base, ListOf(st, ReadyOf(c)));
      SortedSame(st, st', base, ListOf(st', ReadyOf(c)));
    }
  }

  // ---------------------------------------------------------------- steps and runs

  /** The times that a step brings in lie in the window. */
  predicate Timely(base: Word, step: Step) {
    match step
    case Tick(_, v) => InWindow(base, v)
    case Spawn(_, _, _) => InWindow(base, 0)
    case StartCpu(_, _, _, _, _, _) => InWindow(base, 0)
    case _ => true
  }

  lemma UnlinkOrdered(st: State, base: Word, l: ListId, i: nat)
    requires Listed(st) && Ordered(st, base) && i < |ListOf(st, l)| && !l.ReadyOf?
    ensures Ordered(Unlink(st, l, i), base)
  {
    UnlinkListed(st, l, i);
    hide Above, Listed, Sorted;
    OrderedSame(st, Unlink(st, l, i), base);
  }

  lemma WakeOrdered(st: State, base: Word, l: ListId, i: nat)
    requires Inv(st) && Ordered(st, base) && i < |ListOf(st, l)| && !l.ReadyOf?
    ensures var p, st1 := ListOf(st, l)[i], Unlink(st, l, i); Ordered(Inserted(st1, TaskOf(st1, p).cpu, p), base)
  {
    UnlinkListed(st, l, i);
    UnlinkOrdered(st, base, l, i);
    hide Ordered, Inserted, Listed;
    InsertSorted(Unlink(st, l, i), base, ListOf(st, l)[i]);
  }

  lemma FreshOrdered(st: State, base: Word, p: nat, t: Task)
    requires Listed(st) && Ordered(st, base) && p !in st.tasks && InWindow(base, t.vrun)
    ensures Ordered(SetTask(st, p, t), base)
  {
    hide Above, Sorted;
    forall c
      ensures p !in ListOf(st, ReadyOf(c))
    {
      assert Holds(st, ReadyOf(c));
    }
    OrderedSame(st, SetTask(st, p, t), base);
  }

  /** Nothing that the order depends on has changed. */
  ghost predicate SameOrder(st: State, st': State) {
    && (forall c :: ListOf(st', ReadyOf(c)) == ListOf(st, ReadyOf(c)))
    && (forall p :: p in st'.tasks ==> p in st.tasks && st'.tasks[p].vrun == st.tasks[p].vrun)
    && (forall c, p :: p in ListOf(st', ReadyOf(c)) ==> p in st'.tasks)
  }

  lemma SameOrderKeeps(st: State, st': State, base: Word)
    requires Ordered(st, base) && SameOrder(st, st')
    ensures Ordered(st', base)
  {
    hide Above, Sorted;
    OrderedSame(st, st', base);
  }

  lemma ReadyKnown(st: State)
    requires Listed(st)
    ensures forall c, p :: p in ListOf(st, ReadyOf(c)) ==> p in st.tasks
  {
    forall c
      ensures forall p :: p in ListOf(st, ReadyOf(c)) ==> p in st.tasks
    {
      assert Holds(st, ReadyOf(c));
    }
  }

  /** The steps that neither insert, take, nor tick. */
  lemma QuietOrdered(st: State, base: Word, step: Step)
    requires Inv(st) && Ordered(st, base) && Enabled(st, step)
    requires step.Preempt? || step.Yield? || step.Block? || step.Rest? || step.SemaWait? || step.Die? || step.Reap? ||
             step.Inform?
    ensures Ordered(Apply(st, step), base)
  {
    StepKeeps(st, step);
    ReadyKnown(Apply(st, step));
    assert step.Inform? ==> CpuOk(st, step.c);
    hide Inv, Ordered;
    SameOrderKeeps(st, Apply(st, step), base);
  }

  lemma TickOrdered(st: State, base: Word, c: nat, v: Word)
    requires Inv(st) && Ordered(st, base) && Enabled(st, Tick(c, v)) && InWindow(base, v)
    ensures Ordered(Apply(st, Tick(c, v)), base)
  {
    var p, st' := Current(st, c), Apply(st, Tick(c, v));
    assert CpuOk(st, c);
    hide Above;
    forall d
      ensures Sorted(st', base, ListOf(st', ReadyOf(d)))
    {
      assert Sorted(st, base, ListOf(st, ReadyOf(d))) && Holds(st, ReadyOf(d));
      SortedSame(st, st', base, ListOf(st, ReadyOf(d)));
    }
  }

  lemma SpawnOrdered(st: State, base: Word, c: nat, p: nat, w: Word)
    requires Inv(st) && Ordered(st, base) && Enabled(st, Spawn(c, p, w)) && InWindow(base, 0)
    ensures Ordered(Apply(st, Spawn(c, p, w)), base)
  {
    var t := Task(Ready, c, Current(st, c), 0, 0, w, false, false, Nowhere);
    hide Above, Sorted, Inserted;
    FreshListed(st, p, t);
    FreshOrdered(st, base, p, t);
    hide Listed, Ordered;
    InsertSorted(SetTask(st, p, t), base, p);
  }

  lemma StartCpuOrdered(st: State, base: Word, step: Step)
    requires Inv(st) && Ordered(st, base) && step.StartCpu? && Enabled(st, step) && InWindow(base, 0)
    ensures Ordered(Apply(st, step), base)
  {
    var StartCpu(c, main, idle, parent, w, wIdle) := step;
    var st1 := SetTask(st, main, Task(Running, c, parent, 0, 0, w, true, false, Nowhere));
    var st2 := SetCpu(st1, c, Cpu(0, 0, main, idle, main, Run));
    var st3 := SetTask(st2, idle, Task(Ready, c, main, 0, 0, wIdle, false, false, Nowhere));
    hide Above, Sorted, Inserted, Holds, Found;
    FreshListed(st, main, st1.tasks[main]);
    FreshOrdered(st, base, main, st1.tasks[main]);
    ListedSame(st1, st2);
    ReadyKnown(st2);
    SameOrderKeeps(st1, st2, base);
    FreshListed(st2, idle, st3.tasks[idle]);
    FreshOrdered(st2, base, idle, st3.tasks[idle]);
    hide Listed, Ordered;
    InsertSorted(st3, base, idle);
  }

  lemma {:induction false} EmptiedOrdered(st: State, base: Word, p: nat)
    requires Adopting(st, p) && Ordered(st, base)
    ensures Ordered(Emptied(st, p), base)
    decreases |ListOf(st, ExitedOf(p))|
  {
    if ListOf(st, ExitedOf(p)) != [] {
      AdoptedOneIs(st, p);
      AdoptedOneKeeps(st, p);
      ReadyKnown(AdoptedOne(st, p));
      hide Ordered, Adopting, AdoptedOne, Listed;
      SameOrderKeeps(st, AdoptedOne(st, p), base);
      EmptiedOrdered(AdoptedOne(st, p), base, p);
    }
  }

  lemma AdoptOrdered(st: State, base: Word, c: nat)
    requires Inv(st) && Ordered(st, base) && Enabled(st, Adopt(c))
    ensures Ordered(Apply(st, Adopt(c)), base)
  {
    var p := Current(st, c);
    if st.tasks[p].leaving {
      AdoptTwice(st, p);
    } else {
      ReparentedAdopting(st, c);
      var st1 := Reparented(st, p);
      ReadyKnown(st1);
      assert SameOrder(st, st1);
      AdoptedInv(st, c);
      ReadyKnown(Adopted(st, p));
      hide Inv, Ordered, Adopting, Reparented, Emptied, Listed;
      SameOrderKeeps(st, st1, base);
      EmptiedOrdered(st1, base, p);
      EmptiedKeeps(st1, p);
      LeavingOrdered(Emptied(st1, p), base, p);
    }
  }

  lemma LeavingOrdered(st: State, base: Word, p: nat)
    requires Adopting(st, p) && Ordered(st, base)
    ensures Ordered(SetTask(st, p, TaskOf(st, p).(leaving := true)), base)
  {
    ReadyKnown(st);
    hide Ordered;
    SameOrderKeeps(st, SetTask(st, p, TaskOf(st, p).(leaving := true)), base);
  }

  lemma SwitchOutOrdered(st: State, base: Word, c: nat)
    requires Inv(st) && Ordered(st, base) && Enabled(st, SwitchOut(c))
    ensures Ordered(SwitchedOut(st, c), base)
  {
    var p, st1 := Current(st, c), GoTo(st, c, Check(0));
    assert CpuOk(st, c);
    ReadyKnown(st);
    assert SameOrder(st, st1);
    if TaskOf(st, p).status == Running {
      assert Listed(st1) by { hide Listed, Holds; ListedSame(st, st1); }
      hide Inv, Ordered, Listed;
      SameOrderKeeps(st, st1, base);
      InsertSorted(st1, base, p);
    } else {
      SwitchOutKeeps(st, c);
      ReadyKnown(SwitchedOut(st, c));
      hide Inv, Ordered, Inserted;
      SameOrderKeeps(st, SwitchedOut(st, c), base);
    }
  }

  lemma CheckNextOrdered(st: State, base: Word, c: nat, ipc: bool)
    requires Inv(st) && Ordered(st, base) && Enabled(st, CheckNext(c, ipc))
    ensures Ordered(CheckedNext(st, c, ipc), base)
  {
    var k := st.cpus[c].phase.kept;
    if Stays(st, ListOf(st, WaitingOf(c))[k], ipc) {
      ReadyKnown(st);
      hide Inv, Ordered;
      SameOrderKeeps(st, CheckedNext(st, c, ipc), base);
    } else {
      hide Inv, Ordered, Inserted;
      WakeOrdered(st, base, WaitingOf(c), k);
    }
  }

  lemma SwitchedOrdered(st: State, base: Word, c: nat)
    requires Inv(st) && Ordered(st, base) && Walking(st, c) && ListOf(st, ReadyOf(c)) != []
    ensures Ordered(Switched(st, c), base)
  {
    SwitchedIs(st, c);
    UnlinkListed(st, ReadyOf(c), 0);
    hide Inv, Switched, Wrap, Above, Sorted;
    OrderedSame(st, Switched(st, c), base);
  }

  lemma PickNextOrdered(st: State, base: Word, c: nat)
    requires Inv(st) && Ordered(st, base) && Enabled(st, PickNext(c))
    ensures Ordered(Picked(st, c), base)
  {
    WithWorkKeeps(st, c);
    if ListOf(st, ReadyOf(c)) == [] {
      var idle := st.cpus[c].idle;
      assert CpuOk(st, c) && TaskOk(st, idle) && Found(st, idle);
      hide Ordered, Inserted, Switched, Listed;
      InsertSorted(st, base, idle);
    }
    hide Inv, Ordered, WithWork, Switched;
    SwitchedOrdered(WithWork(st, c), base, c);
  }

  lemma StepOrdered(st: State, base: Word, step: Step)
    requires Inv(st) && Ordered(st, base) && Enabled(st, step) && Timely(base, step)
    ensures Ordered(Apply(st, step), base)
  {
    hide Inv, Ordered;
    match step
    case StartCpu(_, _, _, _, _, _) => StartCpuOrdered(st, base, step);
    case Spawn(c, p, w) => SpawnOrdered(st, base, c, p, w);
    case Tick(c, v) => TickOrdered(st, base, c, v);
    case SemaWake(c, s) =>
      if ListOf(st, SemaOf(c, s)) != [] {
        WakeOrdered(st, base, SemaOf(c, s), 0);
      }
    case Adopt(c) => AdoptOrdered(st, base, c);
    case SwitchOut(c) => SwitchOutOrdered(st, base, c);
    case CheckNext(c, ipc) => CheckNextOrdered(st, base, c, ipc);
    case PickNext(c) => PickNextOrdered(st, base, c);
    case _ => QuietOrdered(st, base, step);
  }

  lemma {:induction false} RunOrdered(st: State, base: Word, steps: seq<Step>)
    requires Inv(st) && Ordered(st, base) && forall step :: step in steps ==> Timely(base, step)
    ensures Inv(After(st, steps)) && Ordered(After(st, steps), base)
    decreases |steps|
  {
    hide Inv, Ordered, Enabled, Apply, Timely;
    if steps != [] {
      assert steps[0] in steps;
      if Enabled(st, steps[0]) {
        StepKeeps(st, steps[0]);
        StepOrdered(st, base, steps[0]);
        RunOrdered(Apply(st, steps[0]), base, steps[1..]);
      } else {
        RunOrdered(st, base, steps[1..]);
      }
    }
  }

  lemma HeadIsLeast(st: State, base: Word, c: nat, q: nat)
    requires Ordered(st, base) && Enabled(st, PickNext(c)) && q in ListOf(st, ReadyOf(c))
    ensures var s, next := ListOf(st, ReadyOf(c)), Current(Picked(st, c), c);
            next == s[0] && TimeOf(st, base, next) <= TimeOf(st, base, q)
  {
    SwitchedIs(st, c);
    hide TimeOf, Switched, Wrap;
    assert Sorted(st, base, ListOf(st, ReadyOf(c)));
  }

  /**
   In every run whose times lie in one window, the task picked from a nonempty ready list is the one at its
   front, and no task of the list has run for less.
   */
  lemma PickedIsLeast(base: Word, steps: seq<Step>, c: nat, q: nat)
    requires forall step :: step in steps ==> Timely(base, step)
    requires Enabled(After(Boot, steps), PickNext(c)) && q in ListOf(After(Boot, steps), ReadyOf(c))
    ensures var st := After(Boot, steps);
            var next := Current(Picked(st, c), c);
            next == ListOf(st, ReadyOf(c))[0] && TimeOf(st, base, next) <= TimeOf(st, base, q)
  {
    BootInv();
    RunOrdered(Boot, base, steps);
    HeadIsLeast(After(Boot, steps), base, c, q);
  }
}
