/** What every step of the scheduler keeps. */
module SchedulerInvariant {
  import opened Constants
  import opened Words
  import opened Scheduler
  import opened SchedulerLists

  /** p can be a parent: it exists and has not given its children away. */
  ghost predicate CanParent(st: State, p: nat) {
    p in st.tasks && !st.tasks[p].leaving
  }

  /** t has a parent, on its own CPU unless that is the main task of a CPU, which never exits. */
  ghost predicate ParentOk(st: State, t: Task) {
    CanParent(st, t.ppid) && (st.tasks[t.ppid].resident || st.tasks[t.ppid].cpu == t.cpu)
  }

  /** CPU k still executes on behalf of p, up to the point where p is on its next list. */
  ghost predicate Executes(k: Cpu, p: nat) {
    k.current == p && !k.phase.Check?
  }

  /** The place of p's node matches its status; a task on no list is executing, or is the idle task at rest. */
  ghost predicate PlaceOk(t: Task, p: nat, k: Cpu) {
    match t.place
    case Nowhere => Executes(k, p) || (k.idle == p && t.status == Blocked)
    case On(ReadyOf(c)) => c == t.cpu && t.status == Ready
    case On(WaitingOf(c)) => c == t.cpu && p != k.idle && t.status in {Sending, Receiving, Waiting}
    case On(SemaOf(c, s)) => c == t.cpu && p != k.idle && t.status == Blocked
    case On(ExitedOf(q)) => q == t.ppid && p != k.idle && t.leaving && t.status == Died
  }

  ghost predicate TaskOk(st: State, p: nat) {
    p in st.tasks ==>
      var t := st.tasks[p];
      p < TASKS && t.cpu in st.cpus && ParentOk(st, t) && PlaceOk(t, p, st.cpus[t.cpu])
  }

  /** What a CPU knows of its current task in each phase. */
  ghost predicate PhaseOk(st: State, c: nat, k: Cpu) {
    if k.phase.Check? then k.phase.kept <= |ListOf(st, WaitingOf(c))|
    else
      && k.current in st.tasks
      && var t := st.tasks[k.current];
         && t.cpu == c
         && match k.phase
            case Run => t.status == Running && t.place == Nowhere
            case Out =>
              if t.status == Blocked then t.place.On? || k.current == k.idle
              else t.place == Nowhere && t.status != Ready && (t.status == Died ==> t.leaving)
                   && (k.current == k.idle ==> t.status == Running)
            case Dying(q) => q == t.ppid && t.status == Died && t.place == Nowhere && t.leaving && k.current != k.idle
  }

  /** The counters are the length and the weight sum of the ready list. */
  ghost predicate CountersOk(st: State, c: nat, k: Cpu) {
    k.running == Wrap(|ListOf(st, ReadyOf(c))|) && k.weight == Wrap(SumOf(st, ListOf(st, ReadyOf(c))))
  }

  ghost predicate CpuOk(st: State, c: nat) {
    c in st.cpus ==>
      var k := st.cpus[c];
      && CanParent(st, k.main) && st.tasks[k.main].resident && CanParent(st, k.idle) && st.tasks[k.idle].cpu == c
      && PhaseOk(st, c, k) && CountersOk(st, c, k)
  }

  /** An exiting task that has given its children away is nobody's parent; so its list of exited children is empty. */
  ghost predicate Inv(st: State) {
    && Listed(st)
    && (forall p :: TaskOk(st, p)) && (forall c :: CpuOk(st, c))
  }

  /** The invariant, but for a task p that has just been taken off a list or off its CPU. */
  ghost predicate Loose(st: State, p: nat) {
    && Listed(st)
    && (forall q :: q != p ==> TaskOk(st, q)) && (forall c :: CpuOk(st, c))
    && p in st.tasks && p < TASKS
    && var t := st.tasks[p];
       && t.place == Nowhere && t.cpu in st.cpus && ParentOk(st, t)
       && !Executes(st.cpus[t.cpu], p)
  }

  // ---------------------------------------------------------------- frames

  /**
   st' differs from st in p's record only, which stays a possible parent if it was one, with the same weight and CPU.
   */
  ghost predicate Touched(st: State, st': State, p: nat) {
    && p in st.tasks && st'.tasks.Keys == st.tasks.Keys
    && (forall q :: q in st.tasks && q != p ==> st'.tasks[q] == st.tasks[q])
    && st'.tasks[p].weight == st.tasks[p].weight && st'.tasks[p].cpu == st.tasks[p].cpu
    && st'.tasks[p].ppid == st.tasks[p].ppid && st'.tasks[p].leaving == st.tasks[p].leaving
    && st'.tasks[p].resident == st.tasks[p].resident
  }

  /** CPU c's record differs at most in its counters. */
  ghost predicate SameButCounters(st: State, st': State) {
    && st'.cpus.Keys == st.cpus.Keys
    && forall c :: c in st.cpus ==>
        st'.cpus[c] == st.cpus[c].(running := st'.cpus[c].running, weight := st'.cpus[c].weight)
  }

  lemma OtherTaskOk(st: State, st': State, p: nat, q: nat)
    requires Touched(st, st', p) && SameButCounters(st, st') && q != p && TaskOk(st, q)
    ensures TaskOk(st', q)
  {
  }

  lemma SumTouched(st: State, st': State, p: nat, s: seq<nat>)
    requires Touched(st, st', p)
    ensures SumOf(st', s) == SumOf(st, s)
  {
    SumSame(st, st', s);
  }

  /** A list move by p that leaves alone what c's counters and walk see. */
  lemma OtherCpuOk(st: State, st': State, p: nat, c: nat)
    requires Touched(st, st', p) && SameButCounters(st, st') && CpuOk(st, c)
    requires ListOf(st', ReadyOf(c)) == ListOf(st, ReadyOf(c))
    requires c in st.cpus ==> st'.cpus[c] == st.cpus[c] && !Executes(st.cpus[c], p)
    requires c in st.cpus && st.cpus[c].phase.Check? ==> st.cpus[c].phase.kept <= |ListOf(st', WaitingOf(c))|
    ensures CpuOk(st', c)
  {
    hide SumOf, Wrap;
    SumTouched(st, st', p, ListOf(st, ReadyOf(c)));
  }

  // ---------------------------------------------------------------- insertion into a ready list

  lemma NotListed(st: State, p: nat, l: ListId)
    requires Listed(st) && p in st.tasks && st.tasks[p].place == Nowhere
    ensures p !in ListOf(st, l)
  {
    assert Holds(st, l);
  }

  lemma Overwritten<K, V>(m: map<K, V>, k: K, v: V, v': V)
    ensures m[k := v][k := v'] == m[k := v']
  {
  }

  /** task_list_insert written as one change of each part of the state. */
  lemma InsertionIs(st: State, p: nat)
    requires p in st.tasks && p !in ListOf(st, ReadyOf(st.tasks[p].cpu))
    ensures var c, st' := st.tasks[p].cpu, Inserted(st, st.tasks[p].cpu, p);
            var s := ListOf(st, ReadyOf(c));
            var i := InsertPos(st, s, st.tasks[p].vrun);
            && st'.tasks == st.tasks[p := st.tasks[p].(status := Ready, place := On(ReadyOf(c)))]
            && st'.lists == st.lists[ReadyOf(c) := s[..i] + [p] + s[i..]]
            && st'.cpus == st.cpus[c := CpuOf(st, c).(running := Wrap(CpuOf(st, c).running + 1),
                                                      weight := Wrap(CpuOf(st, c).weight + st.tasks[p].weight))]
  {
    hide Wrap, InsertPos, Before, ListOf, CpuOf;
    var c, t := st.tasks[p].cpu, st.tasks[p];
    var i := InsertPos(st, ListOf(st, ReadyOf(c)), t.vrun);
    var st1, t1 := Link(st, p, ReadyOf(c), i), t.(place := On(ReadyOf(c)));
    LinkIs(st, p, ReadyOf(c), i);
    hide Link;
    Overwritten(st.tasks, p, t1, t1.(status := Ready));
  }

  lemma LinkIs(st: State, p: nat, l: ListId, i: nat)
    requires p in st.tasks && i <= |ListOf(st, l)|
    ensures var s := ListOf(st, l);
            Link(st, p, l, i)
              == State(st.tasks[p := st.tasks[p].(place := On(l))], st.lists[l := s[..i] + [p] + s[i..]], st.cpus)
  {
    hide ListOf;
  }

  lemma InsertionLinks(st: State, p: nat)
    requires p in st.tasks && p !in ListOf(st, ReadyOf(st.tasks[p].cpu))
    ensures var c := st.tasks[p].cpu;
            SameLists(Link(st, p, ReadyOf(c), InsertPos(st, ListOf(st, ReadyOf(c)), st.tasks[p].vrun)),
                Inserted(st, c, p))
  {
    hide Wrap, InsertPos, Before, ListOf, CpuOf, Inserted, Link;
    InsertionIs(st, p);
    var c := st.tasks[p].cpu;
    LinkIs(st, p, ReadyOf(c), InsertPos(st, ListOf(st, ReadyOf(c)), st.tasks[p].vrun));
  }

  /** What task_list_insert does to a task that is on no list. */
  lemma InsertedIs(st: State, p: nat)
    requires Listed(st) && p in st.tasks && st.tasks[p].place == Nowhere
    ensures var c, st' := st.tasks[p].cpu, Inserted(st, st.tasks[p].cpu, p);
            var s := ListOf(st, ReadyOf(c));
            var i := InsertPos(st, s, st.tasks[p].vrun);
            && st'.tasks == st.tasks[p := st.tasks[p].(status := Ready, place := On(ReadyOf(c)))]
            && st'.lists == st.lists[ReadyOf(c) := s[..i] + [p] + s[i..]]
            && st'.cpus == st.cpus[c := CpuOf(st, c).(running := Wrap(CpuOf(st, c).running + 1),
                                                      weight := Wrap(CpuOf(st, c).weight + st.tasks[p].weight))]
            && Listed(st')
  {
    hide Listed, Wrap, InsertPos, Before;
    var c := st.tasks[p].cpu;
    NotListed(st, p, ReadyOf(c));
    InsertionIs(st, p);
    hide Inserted;
    var i := InsertPos(st, ListOf(st, ReadyOf(c)), st.tasks[p].vrun);
    LinkListed(st, p, ReadyOf(c), i);
    InsertionLinks(st, p);
    hide SameLists, Link;
    ListedSame(Link(st, p, ReadyOf(c), i), Inserted(st, c, p));
  }

  /** The counters after an insertion. */
  lemma InsertCounters(st: State, p: nat)
    requires Listed(st) && p in st.tasks && st.tasks[p].place == Nowhere
    requires CountersOk(st, st.tasks[p].cpu, CpuOf(st, st.tasks[p].cpu))
    ensures var c, st' := st.tasks[p].cpu, Inserted(st, st.tasks[p].cpu, p);
            CountersOk(st', c, CpuOf(st', c))
  {
    hide Wrap, InsertPos, Before, SumOf, Listed, Inserted;
    InsertedIs(st, p);
    var c, st' := st.tasks[p].cpu, Inserted(st, st.tasks[p].cpu, p);
    var s := ListOf(st, ReadyOf(c));
    var i := InsertPos(st, s, st.tasks[p].vrun);
    WrapStep(|s|, 1);
    WrapStep(SumOf(st, s), st.tasks[p].weight);
    SumWith(st, s, i, p);
    var s' := s[..i] + [p] + s[i..];
    assert ListOf(st', ReadyOf(c)) == s' && |s'| == |s| + 1;
    SumSame(st, st', s');
  }

  /** As OtherCpuOk, for the CPU whose ready list p goes on or comes off. */
  lemma OwnCpuOk(st: State, st': State, p: nat, c: nat)
    requires Touched(st, st', p) && SameButCounters(st, st') && CpuOk(st, c) && c in st.cpus
    requires ListOf(st', WaitingOf(c)) == ListOf(st, WaitingOf(c)) && !Executes(st.cpus[c], p)
    requires CountersOk(st', c, st'.cpus[c])
    ensures CpuOk(st', c)
  {
    hide CountersOk;
  }

  /** What CpuOk says of the counters and of the walk. */
  lemma CpuKnows(st: State, c: nat)
    requires CpuOk(st, c) && c in st.cpus
    ensures CountersOk(st, c, CpuOf(st, c))
    ensures st.cpus[c].phase.Check? ==> st.cpus[c].phase.kept <= |ListOf(st, WaitingOf(c))|
  {
    hide CountersOk, CanParent;
  }

  /** One record, one list and one CPU's counters change. */
  lemma OneOfEach(st: State, st': State, p: nat, t: Task, l: ListId, s: seq<nat>, c: nat, running: Word, weight: Word)
    requires p in st.tasks && c in st.cpus
    requires t == st.tasks[p].(status := t.status, place := t.place)
    requires st'.tasks == st.tasks[p := t] && st'.lists == st.lists[l := s]
    requires st'.cpus == st.cpus[c := st.cpus[c].(running := running, weight := weight)]
    ensures Touched(st, st', p) && SameButCounters(st, st')
    ensures forall l' :: l' != l ==> ListOf(st', l') == ListOf(st, l')
    ensures forall d :: d in st.cpus && d != c ==> st'.cpus[d] == st.cpus[d]
  {
  }

  /** What an insertion leaves alone. */
  lemma InsertedFrame(st: State, p: nat)
    requires Listed(st) && p in st.tasks && st.tasks[p].place == Nowhere && st.tasks[p].cpu in st.cpus
    ensures var c, st' := st.tasks[p].cpu, Inserted(st, st.tasks[p].cpu, p);
            && Touched(st, st', p) && SameButCounters(st, st') && Listed(st')
            && (forall l :: l != ReadyOf(c) ==> ListOf(st', l) == ListOf(st, l))
            && (forall d :: d in st.cpus && d != c ==> st'.cpus[d] == st.cpus[d])
            && st'.tasks[p] == st.tasks[p].(status := Ready, place := On(ReadyOf(c)))
  {
    hide Wrap, InsertPos, Before, Listed, Inserted, Touched, SameButCounters, ListOf;
    InsertedIs(st, p);
    var c, st' := st.tasks[p].cpu, Inserted(st, st.tasks[p].cpu, p);
    OneOfEach(st, st', p, st.tasks[p].(status := Ready, place := On(ReadyOf(c))), ReadyOf(c), st'.lists[ReadyOf(c)],
              c, st'.cpus[c].running, st'.cpus[c].weight);
  }

  lemma InsertedCpuOk(st: State, p: nat, c: nat)
    requires Listed(st) && p in st.tasks && st.tasks[p].place == Nowhere && st.tasks[p].cpu in st.cpus
    requires CpuOk(st, c) && (c in st.cpus ==> !Executes(st.cpus[c], p))
    ensures CpuOk(Inserted(st, st.tasks[p].cpu, p), c)
  {
    hide Listed, CountersOk, Inserted, Touched, Executes;
    InsertedFrame(st, p);
    var st' := Inserted(st, st.tasks[p].cpu, p);
    if c !in st.cpus {
      hide PhaseOk;
    } else {
      CpuKnows(st, c);
      hide CpuOk;
      if c == st.tasks[p].cpu {
        InsertCounters(st, p);
        OwnCpuOk(st, st', p, c);
      } else {
        OtherCpuOk(st, st', p, c);
      }
    }
  }

  lemma InsertedTaskOk(st: State, p: nat)
    requires Loose(st, p)
    ensures TaskOk(Inserted(st, st.tasks[p].cpu, p), p)
  {
    InsertedFrame(st, p);
    hide Listed, Inserted, CpuOk;
  }

  lemma LooseInsert(st: State, p: nat)
    requires Loose(st, p)
    ensures Inv(Inserted(st, st.tasks[p].cpu, p))
  {
    hide Listed, Inserted, CpuOk, TaskOk, ParentOk, Executes;
    InsertedFrame(st, p);
    InsertedTaskOk(st, p);
    var st' := Inserted(st, st.tasks[p].cpu, p);
    forall q | q != p
      ensures TaskOk(st', q)
    {
      OtherTaskOk(st, st', p, q);
    }
    forall c
      ensures CpuOk(st', c)
    {
      NotExecuting(st, p, c);
      InsertedCpuOk(st, p, c);
    }
  }

  lemma NotExecuting(st: State, p: nat, c: nat)
    requires Loose(st, p) && CpuOk(st, c)
    ensures c in st.cpus ==> !Executes(st.cpus[c], p)
  {
  }

  // ---------------------------------------------------------------- other list moves

  /** A list that is neither ready nor waiting. */
  lemma LooseAppend(st: State, p: nat, l: ListId)
    requires Loose(st, p) && !l.ReadyOf?
    requires PlaceOk(st.tasks[p].(place := On(l)), p, st.cpus[st.tasks[p].cpu])
    ensures Inv(Append(st, p, l))
  {
    hide Wrap, SumOf, Listed;
    var st' := Append(st, p, l);
    LinkListed(st, p, l, |ListOf(st, l)|);
    forall q
      ensures TaskOk(st', q)
    {
      if q != p {
        assert TaskOk(st, q);
        OtherTaskOk(st, st', p, q);
      }
    }
    forall c
      ensures CpuOk(st', c)
    {
      assert CpuOk(st, c);
      OtherCpuOk(st, st', p, c);
    }
  }

  /** Taking a task off a list; a walk over the list must not have passed it. */
  lemma UnlinkLoose(st: State, l: ListId, i: nat)
    requires Inv(st) && i < |ListOf(st, l)| && !l.ReadyOf?
    requires l.WaitingOf? && l.c in st.cpus && st.cpus[l.c].phase.Check? ==> st.cpus[l.c].phase.kept <= i
    requires l.SemaOf? ==> l.c in st.cpus && st.cpus[l.c].phase == Run
    ensures Loose(Unlink(st, l, i), ListOf(st, l)[i])
  {
    UnlinkListed(st, l, i);
    hide Wrap, SumOf, Listed;
    var p, st' := ListOf(st, l)[i], Unlink(st, l, i);
    assert TaskOk(st, p) && CpuOk(st, st.tasks[p].cpu);
    forall q | q != p
      ensures TaskOk(st', q)
    {
      assert TaskOk(st, q);
      OtherTaskOk(st, st', p, q);
    }
    forall c
      ensures CpuOk(st', c)
    {
      assert CpuOk(st, c);
      OtherCpuOk(st, st', p, c);
    }
  }
}
