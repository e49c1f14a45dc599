/** Tasks and CPUs that come and go: starting a CPU, exiting, adopting and reaping. */
module SchedulerExit {
  import opened Constants
  import opened Words
  import opened Scheduler
  import opened SchedulerSteps
  import opened SchedulerLists
  import opened SchedulerInvariant
  import opened SchedulerSafety

  // ---------------------------------------------------------------- a new CPU

  /** The lists of a CPU that has not started are empty. */
  lemma NoListsYet(st: State, c: nat)
    requires Inv(st) && c !in st.cpus
    ensures ListOf(st, ReadyOf(c)) == []
  {
    var s := ListOf(st, ReadyOf(c));
    hide Inv;
    if s != [] {
      ReadyHasCpu(st, c, s[0]);
    }
  }

  lemma ReadyHasCpu(st: State, c: nat, p: nat)
    requires Inv(st) && p in ListOf(st, ReadyOf(c))
    ensures c in st.cpus
  {
    assert Holds(st, ReadyOf(c)) && TaskOk(st, p);
  }

  lemma StartCpuKeeps(st: State, step: Step)
    requires Inv(st) && step.StartCpu? && Enabled(st, step)
    ensures Inv(Apply(st, step))
  {
    var StartCpu(c, main, idle, parent, w, wIdle) := step;
    var st1 := SetTask(st, main, Task(Running, c, parent, 0, 0, w, true, false, Nowhere));
    var st2 := SetCpu(st1, c, Cpu(0, 0, main, idle, main, Run));
    var st3 := SetTask(st2, idle, Task(Ready, c, main, 0, 0, wIdle, false, false, Nowhere));
    hide Wrap, Inserted;
    assert Listed(st3) by {
      FreshListed(st, main, st1.tasks[main]);
      assert Listed(st2) by { hide Holds; ListedSame(st1, st2); }
      FreshListed(st2, idle, st3.tasks[idle]);
    }
    assert Loose(st3, idle) by {
      if parent != main {
        var d :| d in st.cpus && st.cpus[d].main == parent;
        assert CpuOk(st, d);
      }
      NoListsYet(st, c);
      hide Listed;
      forall q | q != idle
        ensures TaskOk(st3, q)
      {
        assert TaskOk(st, q);
      }
      forall d
        ensures CpuOk(st3, d)
      {
        StartedCpuOk(st, st3, c, main, idle, d);
      }
    }
    LooseInsert(st3, idle);
  }

  lemma StartedCpuOk(st: State, st3: State, c: nat, main: nat, idle: nat, d: nat)
    requires Inv(st) && c !in st.cpus && main !in st.tasks && idle !in st.tasks && main != idle
    requires main in st3.tasks && idle in st3.tasks && st3.lists == st.lists
    requires st3.tasks == st.tasks[main := st3.tasks[main]][idle := st3.tasks[idle]]
    requires st3.tasks[main].status == Running && st3.tasks[main].place == Nowhere && st3.tasks[main].cpu == c
    requires st3.tasks[main].resident && !st3.tasks[main].leaving && !st3.tasks[idle].leaving &&
             st3.tasks[idle].cpu == c
    requires st3.cpus == st.cpus[c := Cpu(0, 0, main, idle, main, Run)] && ListOf(st, ReadyOf(c)) == []
    ensures CpuOk(st3, d)
  {
    hide Wrap;
    assert CpuOk(st, d) && Holds(st, ReadyOf(d));
    if d == c {
      WrapSmall(0);
    } else {
      SumSame(st, st3, ListOf(st, ReadyOf(d)));
    }
  }

  // ---------------------------------------------------------------- reaping

  /** A task on no list that nobody has as parent can be forgotten. */
  lemma ForgetKeeps(st: State, q: nat)
    requires Loose(st, q) && st.tasks[q].leaving
    ensures Inv(st.(tasks := st.tasks - {q}))
  {
    hide Wrap;
    var st' := st.(tasks := st.tasks - {q});
    assert Listed(st') by {
      forall l
        ensures Holds(st', l)
      {
        assert Holds(st, l);
      }
      forall p
        ensures Found(st', p)
      {
        assert Found(st, p);
      }
    }
    forall p
      ensures TaskOk(st', p)
    {
      assert p != q ==> TaskOk(st, p);
    }
    forall c
      ensures CpuOk(st', c)
    {
      assert CpuOk(st, c) && Holds(st, ReadyOf(c));
      SumSame(st, st', ListOf(st, ReadyOf(c)));
    }
  }

  /**
   No list holds q, no task has it as parent, and no CPU as main or idle task; a CPU may still name it as the one
   that ran last, until the walk of its schedule() ends.
   */
  ghost predicate Forgotten(st: State, q: nat) {
    && q !in st.tasks && (forall l :: q !in ListOf(st, l))
    && (forall r :: r in st.tasks ==> st.tasks[r].ppid != q)
    && forall d :: d in st.cpus ==>
         st.cpus[d].main != q && st.cpus[d].idle != q && (st.cpus[d].current == q ==> st.cpus[d].phase.Check?)
  }

  lemma FreeIsForgotten(st: State, q: nat)
    requires Inv(st) && q !in st.tasks
    ensures Forgotten(st, q)
  {
    forall l
      ensures q !in ListOf(st, l)
    {
      assert Holds(st, l);
    }
    forall r | r in st.tasks
      ensures st.tasks[r].ppid != q
    {
      assert TaskOk(st, r);
    }
    forall d | d in st.cpus
      ensures st.cpus[d].main != q && st.cpus[d].idle != q && (st.cpus[d].current == q ==> st.cpus[d].phase.Check?)
    {
      assert CpuOk(st, d);
    }
  }

  lemma ReapKeeps(st: State, c: nat)
    requires Inv(st) && Enabled(st, Reap(c))
    ensures Inv(Apply(st, Reap(c)))
    ensures Forgotten(Apply(st, Reap(c)), ListOf(st, ExitedOf(Current(st, c)))[0])
  {
    var l := ExitedOf(Current(st, c));
    var q := ListOf(st, l)[0];
    UnlinkListed(st, l, 0);
    assert TaskOk(st, q);
    UnlinkLoose(st, l, 0);
    hide Inv, Loose, Forgotten;
    ForgetKeeps(Unlink(st, l, 0), q);
    FreeIsForgotten(Apply(st, Reap(c)), q);
  }

  // ---------------------------------------------------------------- adoption

  /** p's children have their new parent, but the exited ones may still be on p's list. */
  ghost predicate Adopting(st: State, p: nat) {
    && Listed(st) && p in st.tasks && !st.tasks[p].leaving && !st.tasks[p].resident
    && (forall c :: c in st.cpus ==> st.cpus[c].idle != p)
    && (forall r :: ChildOk(st, p, r)) && (forall c :: CpuOk(st, c))
  }

  ghost predicate ChildOk(st: State, p: nat, r: nat) {
    r in st.tasks ==>
      var t := st.tasks[r];
      && r < TASKS && t.cpu in st.cpus && ParentOk(st, t) && t.ppid != p
      && if t.place == On(ExitedOf(p)) then
           t.ppid == st.cpus[t.cpu].main && PlaceOk(t.(ppid := p), r, st.cpus[t.cpu])
         else PlaceOk(t, r, st.cpus[t.cpu])
  }

  lemma ReparentedAdopting(st: State, c: nat)
    requires Inv(st) && Enabled(st, Adopt(c)) && !st.tasks[Current(st, c)].leaving
    ensures Adopting(Reparented(st, Current(st, c)), Current(st, c))
  {
    hide Wrap, SumOf;
    var p := Current(st, c);
    assert CpuOk(st, c);
    var st' := Reparented(st, p);
    assert Listed(st') by { hide Listed, Holds; ListedSame(st, st'); }
    hide Listed;
    forall r
      ensures ChildOk(st', p, r)
    {
      assert TaskOk(st, r) && CpuOk(st, TaskOf(st, r).cpu);
    }
    forall d
      ensures CpuOk(st', d)
    {
      assert CpuOk(st, d) && TaskOk(st, CpuOf(st, d).current);
      SumSame(st, st', ListOf(st, ReadyOf(d)));
    }
    forall d | d in st.cpus
      ensures st.cpus[d].idle != p
    {
      assert CpuOk(st, d);
    }
  }

  lemma AdoptedOneIs(st: State, p: nat)
    requires Adopting(st, p) && ListOf(st, ExitedOf(p)) != []
    ensures var r, st' := ListOf(st, ExitedOf(p))[0], AdoptedOne(st, p);
            && r in st.tasks && st.tasks[r].place == On(ExitedOf(p)) && st.tasks[r].cpu in st.cpus
            && st.cpus[st.tasks[r].cpu].main != p
            && st'.tasks == st.tasks[r := st.tasks[r].(place := On(ExitedOf(st.cpus[st.tasks[r].cpu].main)))]
            && st'.cpus == st.cpus && Listed(st')
            && ListOf(st', ExitedOf(p)) == ListOf(st, ExitedOf(p))[1..]
            && (forall l: ListId :: !l.ExitedOf? ==> ListOf(st', l) == ListOf(st, l))
  {
    var s, r := ListOf(st, ExitedOf(p)), ListOf(st, ExitedOf(p))[0];
    UnlinkListed(st, ExitedOf(p), 0);
    assert ChildOk(st, p, r);
    var st1 := Unlink(st, ExitedOf(p), 0);
    hide Listed;
    assert s[..0] + s[1..] == s[1..];
    LinkListed(st1, r, ExitedOf(st.cpus[st.tasks[r].cpu].main), |ListOf(st1, ExitedOf(st.cpus[st.tasks[r].cpu].main))|);
  }

  lemma AdoptedOneKeeps(st: State, p: nat)
    requires Adopting(st, p) && ListOf(st, ExitedOf(p)) != []
    ensures Adopting(AdoptedOne(st, p), p)
    ensures |ListOf(AdoptedOne(st, p), ExitedOf(p))| < |ListOf(st, ExitedOf(p))|
  {
    AdoptedOneIs(st, p);
    hide Wrap, AdoptedOne, Listed, SumOf;
    var r, st' := ListOf(st, ExitedOf(p))[0], AdoptedOne(st, p);
    assert ChildOk(st, p, r);
    forall q
      ensures ChildOk(st', p, q)
    {
      assert ChildOk(st, p, q);
    }
    forall c
      ensures CpuOk(st', c)
    {
      assert CpuOk(st, c);
      SumSame(st, st', ListOf(st, ReadyOf(c)));
    }
  }

  lemma {:induction false} EmptiedKeeps(st: State, p: nat)
    requires Adopting(st, p)
    ensures Adopting(Emptied(st, p), p) && ListOf(Emptied(st, p), ExitedOf(p)) == []
    decreases |ListOf(st, ExitedOf(p))|
  {
    hide Adopting, AdoptedOne;
    if ListOf(st, ExitedOf(p)) != [] {
      AdoptedOneKeeps(st, p);
      EmptiedKeeps(AdoptedOne(st, p), p);
    }
  }

  lemma AdoptingDone(st: State, p: nat)
    requires Adopting(st, p) && ListOf(st, ExitedOf(p)) == []
    ensures Inv(SetTask(st, p, TaskOf(st, p).(leaving := true)))
  {
    hide Wrap, SumOf;
    var st' := SetTask(st, p, TaskOf(st, p).(leaving := true));
    forall q
      ensures TaskOk(st', q)
    {
      assert ChildOk(st, p, q) && Found(st, q);
    }
    assert Listed(st') by { hide Listed, Holds; ListedSame(st, st'); }
    hide Listed;
    forall c
      ensures CpuOk(st', c)
    {
      assert CpuOk(st, c);
      SumSame(st, st', ListOf(st, ReadyOf(c)));
    }
  }

  /** A task that has given its children away has none. */
  lemma LeavingIsChildless(st: State, p: nat)
    requires Inv(st) && p in st.tasks && st.tasks[p].leaving
    ensures (forall r :: r in st.tasks ==> st.tasks[r].ppid != p) && ListOf(st, ExitedOf(p)) == []
  {
    forall r | r in st.tasks
      ensures st.tasks[r].ppid != p
    {
      assert TaskOk(st, r);
    }
    var s := ListOf(st, ExitedOf(p));
    assert Holds(st, ExitedOf(p));
    assert s != [] ==> s[0] in s && TaskOk(st, s[0]);
  }

  /** The second loop of the adoption moves nodes between lists of exited children, and does nothing else to a task. */
  lemma {:induction false} EmptiedIs(st: State, p: nat)
    requires Adopting(st, p)
    ensures var st' := Emptied(st, p);
            && st'.tasks.Keys == st.tasks.Keys && st'.cpus == st.cpus
            && (forall r :: r in st.tasks ==> st'.tasks[r] == st.tasks[r].(place := st'.tasks[r].place))
            && (forall l: ListId :: !l.ExitedOf? ==> ListOf(st', l) == ListOf(st, l))
    decreases |ListOf(st, ExitedOf(p))|
  {
    if ListOf(st, ExitedOf(p)) != [] {
      AdoptedOneKeeps(st, p);
      AdoptedOneIs(st, p);
      hide Adopting, AdoptedOne, ListOf;
      EmptiedIs(AdoptedOne(st, p), p);
    }
  }

  /** The exited children of s that go to q, the main task of their CPU, in order. */
  function HandedTo(st: State, s: seq<nat>, q: nat): seq<nat> {
    if s == [] then [] else FirstHanded(st, s, q) + HandedTo(st, s[1..], q)
  }

  function FirstHanded(st: State, s: seq<nat>, q: nat): seq<nat>
    requires s != []
  {
    if CpuOf(st, TaskOf(st, s[0]).cpu).main == q then [s[0]] else []
  }

  lemma {:induction false} HandedSame(st: State, st': State, s: seq<nat>, q: nat)
    requires st'.cpus == st.cpus && forall r :: TaskOf(st', r).cpu == TaskOf(st, r).cpu
    ensures HandedTo(st', s, q) == HandedTo(st, s, q)
  {
    if s != [] {
      HandedSame(st, st', s[1..], q);
    }
  }

  lemma AdoptedOneLists(st: State, p: nat, q: nat)
    requires Adopting(st, p) && ListOf(st, ExitedOf(p)) != [] && q != p
    ensures ListOf(AdoptedOne(st, p), ExitedOf(q))
         == ListOf(st, ExitedOf(q)) + FirstHanded(st, ListOf(st, ExitedOf(p)), q)
  {
    AdoptedOneIs(st, p);
    hide Adopting;
    var s := ListOf(st, ExitedOf(q));
    assert s[..|s|] == s && s[|s|..] == [];
  }

  /** The exited children are appended to the lists of their new parents, in the order in which they exited. */
  lemma {:induction false} EmptiedLists(st: State, p: nat, q: nat)
    requires Adopting(st, p) && q != p
    ensures ListOf(Emptied(st, p), ExitedOf(q))
         == ListOf(st, ExitedOf(q)) + HandedTo(st, ListOf(st, ExitedOf(p)), q)
    decreases |ListOf(st, ExitedOf(p))|
  {
    var s := ListOf(st, ExitedOf(p));
    if s == [] {
      assert ListOf(st, ExitedOf(q)) + [] == ListOf(st, ExitedOf(q));
    } else {
      AdoptedOneKeeps(st, p);
      AdoptedOneLists(st, p, q);
      ShorterList(st, p, s, q);
      hide Adopting, AdoptedOne, ListOf, FirstHanded, TaskOf;
      EmptiedNext(st, p);
      hide Emptied;
      EmptiedLists(AdoptedOne(st, p), p, q);
      Appended(ListOf(st, ExitedOf(q)), FirstHanded(st, s, q), HandedTo(st, s[1..], q));
    }
  }

  lemma EmptiedNext(st: State, p: nat)
    requires ListOf(st, ExitedOf(p)) != [] && |ListOf(AdoptedOne(st, p), ExitedOf(p))| < |ListOf(st, ExitedOf(p))|
    ensures Emptied(st, p) == Emptied(AdoptedOne(st, p), p)
  {
    hide AdoptedOne, ListOf;
  }

  lemma Appended(a: seq<nat>, b: seq<nat>, c: seq<nat>)
    ensures (a + b) + c == a + (b + c)
  {
  }

  lemma ShorterList(st: State, p: nat, s: seq<nat>, q: nat)
    requires Adopting(st, p) && ListOf(st, ExitedOf(p)) == s != []
    ensures ListOf(AdoptedOne(st, p), ExitedOf(p)) == s[1..]
    ensures HandedTo(AdoptedOne(st, p), s[1..], q) == HandedTo(st, s[1..], q)
  {
    AdoptedOneIs(st, p);
    hide Adopting, AdoptedOne, HandedTo;
    HandedSame(st, AdoptedOne(st, p), s[1..], q);
  }

  /** Where the exited children go. */
  lemma AdoptedLists(st: State, c: nat, q: nat)
    requires Inv(st) && Enabled(st, Adopt(c)) && q != Current(st, c)
    ensures ListOf(Apply(st, Adopt(c)), ExitedOf(q))
         == ListOf(st, ExitedOf(q)) + HandedTo(st, ListOf(st, ExitedOf(Current(st, c))), q)
  {
    hide Inv, Adopting, Emptied;
    var p := Current(st, c);
    if st.tasks[p].leaving {
      AdoptTwice(st, p);
      LeavingIsChildless(st, p);
    } else {
      ReparentedAdopting(st, c);
      EmptiedLists(Reparented(st, p), p, q);
      HandedSame(st, Reparented(st, p), ListOf(st, ExitedOf(p)), q);
    }
  }

  /** What adoption does: p's children become those of the main task of their CPU. */
  ghost predicate GivesAway(st: State, st': State, p: nat) {
    && st'.tasks.Keys == st.tasks.Keys && st'.cpus == st.cpus
    && (forall l: ListId :: !l.ExitedOf? ==> ListOf(st', l) == ListOf(st, l))
    && forall r :: r in st.tasks ==>
         && st'.tasks[r].ppid == (if st.tasks[r].ppid == p then CpuOf(st, st.tasks[r].cpu).main else st.tasks[r].ppid)
         && st'.tasks[r].leaving == (r == p || st.tasks[r].leaving)
         && st'.tasks[r] == st.tasks[r].(ppid := st'.tasks[r].ppid, place := st'.tasks[r].place,
                                     leaving := st'.tasks[r].leaving)
  }

  lemma AdoptedIs(st: State, c: nat)
    requires Inv(st) && Enabled(st, Adopt(c))
    ensures GivesAway(st, Apply(st, Adopt(c)), Current(st, c))
  {
    hide Inv, Adopting, Emptied;
    var p := Current(st, c);
    if st.tasks[p].leaving {
      AdoptTwice(st, p);
      LeavingIsChildless(st, p);
    } else {
      ReparentedAdopting(st, c);
      EmptiedIs(Reparented(st, p), p);
    }
  }

  /**
   After adoption nobody has p as parent and its list of exited children is empty; the children have another parent.
   */
  lemma AdoptKeeps(st: State, c: nat)
    requires Inv(st) && Enabled(st, Adopt(c))
    ensures var p, st' := Current(st, c), Apply(st, Adopt(c));
            && Inv(st') && GivesAway(st, st', p)
            && (forall r :: r in st'.tasks ==> st'.tasks[r].ppid != p) && ListOf(st', ExitedOf(p)) == []
            && forall q :: q != p ==>
                 ListOf(st', ExitedOf(q)) == ListOf(st, ExitedOf(q)) + HandedTo(st, ListOf(st, ExitedOf(p)), q)
  {
    hide Inv, GivesAway, Adopted, HandedTo;
    forall q | q != Current(st, c)
      ensures ListOf(Apply(st, Adopt(c)), ExitedOf(q))
           == ListOf(st, ExitedOf(q)) + HandedTo(st, ListOf(st, ExitedOf(Current(st, c))), q)
    {
      AdoptedLists(st, c, q);
    }
    AdoptedInv(st, c);
    AdoptedIs(st, c);
    AdoptedLeaves(st, c);
    LeavingIsChildless(Apply(st, Adopt(c)), Current(st, c));
  }

  lemma AdoptedLeaves(st: State, c: nat)
    requires Inv(st) && Enabled(st, Adopt(c))
    ensures Current(st, c) in Apply(st, Adopt(c)).tasks && Apply(st, Adopt(c)).tasks[Current(st, c)].leaving
  {
    hide Inv, Emptied, Reparented;
  }

  lemma AdoptedInv(st: State, c: nat)
    requires Inv(st) && Enabled(st, Adopt(c))
    ensures Inv(Apply(st, Adopt(c)))
  {
    var p := Current(st, c);
    if st.tasks[p].leaving {
      AdoptTwice(st, p);
    } else {
      hide Inv, Adopting, Reparented, Emptied;
      ReparentedAdopting(st, c);
      EmptiedKeeps(Reparented(st, p), p);
      AdoptingDone(Emptied(Reparented(st, p), p), p);
    }
  }

  lemma AdoptTwice(st: State, p: nat)
    requires Inv(st) && p in st.tasks && st.tasks[p].leaving
    ensures Adopted(st, p) == st
  {
    LeavingIsChildless(st, p);
    hide Inv;
    assert Reparented(st, p).tasks == st.tasks;
  }
}
