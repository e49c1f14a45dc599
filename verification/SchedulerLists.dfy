/** The list nodes of the scheduler: no node is on two lists, and every list move keeps it so. */
module SchedulerLists {
  import opened Sequences
  import opened Scheduler

  /** List l holds tasks whose node is on l, each once. */
  ghost predicate Holds(st: State, l: ListId) {
    Distinct(ListOf(st, l)) && forall p :: p in ListOf(st, l) ==> p in st.tasks && st.tasks[p].place == On(l)
  }

  /** p's node is found where it is said to be. */
  ghost predicate Found(st: State, p: nat) {
    p in st.tasks && st.tasks[p].place.On? ==> p in ListOf(st, st.tasks[p].place.l)
  }

  ghost predicate Listed(st: State) {
    (forall l :: Holds(st, l)) && (forall p :: Found(st, p))
  }

  /** The lists and the places have not changed. */
  ghost predicate SameLists(st: State, st': State) {
    && st'.lists == st.lists && st'.tasks.Keys == st.tasks.Keys
    && forall p :: p in st.tasks ==> st'.tasks[p].place == st.tasks[p].place
  }

  lemma ListedSame(st: State, st': State)
    requires Listed(st) && SameLists(st, st')
    ensures Listed(st')
  {
    forall l
      ensures Holds(st', l)
    {
      assert Holds(st, l);
    }
    forall p
      ensures Found(st', p)
    {
      assert Found(st, p);
    }
  }

  lemma LinkHolds(st: State, p: nat, l: ListId, i: nat, l': ListId)
    requires Holds(st, l) && Holds(st, l') && p in st.tasks && st.tasks[p].place == Nowhere
    ensures Holds(Link(st, p, l, i), l')
  {
    if l' == l {
      var s := ListOf(st, l);
      var j := if i <= |s| then i else |s|;
      assert p !in s;
      assert ListOf(Link(st, p, l, i), l) == s[..j] + [p] + s[j..];
    }
  }

  lemma LinkListed(st: State, p: nat, l: ListId, i: nat)
    requires Listed(st) && p in st.tasks && st.tasks[p].place == Nowhere
    ensures Listed(Link(st, p, l, i))
  {
    hide Holds;
    var st' := Link(st, p, l, i);
    assert Holds(st, l);
    forall l'
      ensures Holds(st', l')
    {
      assert Holds(st, l');
      LinkHolds(st, p, l, i, l');
    }
    forall q
      ensures Found(st', q)
    {
      assert Found(st, q);
      var s := ListOf(st, l);
      var j := if i <= |s| then i else |s|;
      assert s == s[..j] + s[j..];
    }
  }

  lemma UnlinkHolds(st: State, l: ListId, i: nat, l': ListId)
    requires i < |ListOf(st, l)| && Holds(st, l) && Holds(st, l')
    ensures Holds(Unlink(st, l, i), l')
  {
    var s, st' := ListOf(st, l), Unlink(st, l, i);
    if l' == l {
      assert ListOf(st', l) == s[..i] + s[i + 1..];
      assert s[i] !in s[..i] && s[i] !in s[i + 1..];
    }
  }

  lemma UnlinkListed(st: State, l: ListId, i: nat)
    requires Listed(st) && i < |ListOf(st, l)|
    ensures var p := ListOf(st, l)[i]; p in st.tasks && st.tasks[p].place == On(l)
    ensures Listed(Unlink(st, l, i))
  {
    var s, st' := ListOf(st, l), Unlink(st, l, i);
    assert Holds(st, l);
    assert s[i] in s;
    hide Holds;
    forall l'
      ensures Holds(st', l')
    {
      assert Holds(st, l');
      UnlinkHolds(st, l, i, l');
    }
    forall q
      ensures Found(st', q)
    {
      assert Found(st, q);
      assert s == s[..i] + [s[i]] + s[i + 1..];
    }
  }

  // ---------------------------------------------------------------- sums of weights

  function SumOf(st: State, s: seq<nat>): nat {
    if s == [] then 0 else TaskOf(st, s[0]).weight + SumOf(st, s[1..])
  }

  lemma {:induction false} SumSame(st: State, st': State, s: seq<nat>)
    requires forall p :: p in s ==> TaskOf(st', p).weight == TaskOf(st, p).weight
    ensures SumOf(st', s) == SumOf(st, s)
  {
    if s != [] {
      SumSame(st, st', s[1..]);
    }
  }

  lemma {:induction false} SumSplit(st: State, s: seq<nat>, t: seq<nat>)
    ensures SumOf(st, s + t) == SumOf(st, s) + SumOf(st, t)
  {
    if s == [] {
      assert s + t == t;
    } else {
      assert (s + t)[1..] == s[1..] + t;
      SumSplit(st, s[1..], t);
    }
  }

  lemma SumWith(st: State, s: seq<nat>, j: nat, p: nat)
    requires j <= |s|
    ensures SumOf(st, s[..j] + [p] + s[j..]) == SumOf(st, s) + TaskOf(st, p).weight
  {
    assert s == s[..j] + s[j..];
    SumSplit(st, s[..j], s[j..]);
    SumSplit(st, s[..j] + [p], s[j..]);
    SumSplit(st, s[..j], [p]);
  }
}
