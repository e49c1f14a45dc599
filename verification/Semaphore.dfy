/**
 Counting semaphores on one CPU. Interrupts are off from the test of the value to the point where the task
 blocks or takes the semaphore, so each such section, and each `up`, is one step. A woken task tests again,
 and may find that another task came first.
 */
module Semaphore {
  import opened Sequences
  import opened Words

  /** The value and the queue of blocked tasks. */
  datatype Sema = Sema(value: Word, waiters: seq<nat>)

  /** One pass through the loop of `down` by task p: take one, or join the queue. */
  function Tested(s: Sema, p: nat): Sema {
    if s.value == 0 then s.(waiters := s.waiters + [p]) else s.(value := Wrap(s.value - 1))
  }

  /** `up`: the first waiter, if any, leaves the queue, and the value is incremented in any case. */
  function Raised(s: Sema): Sema {
    Sema(Wrap(s.value + 1), if s.waiters == [] then [] else s.waiters[1..])
  }

  class Semaphore {
    var value: Word
    var waiters: seq<nat>

    ghost function State(): Sema
      reads this
    {
      Sema(value, waiters)
    }

    constructor (initial: Word)
      ensures State() == Sema(initial, [])
    {
      value, waiters := initial, [];
    }

    method DownTest(p: nat) returns (taken: bool)
      requires p !in waiters
      modifies this
      ensures State() == Tested(old(State()), p) && taken == (old(value) > 0)
    {
      if value == 0 {
        waiters := waiters + [p];
        taken := false;
      } else {
        value := Wrap(value - 1);
        taken := true;
      }
    }

    method Up() returns (unblocked: seq<nat>)
      modifies this
      ensures State() == Raised(old(State()))
      ensures unblocked + waiters == old(waiters) && |unblocked| <= 1
    {
      unblocked := [];
      if waiters != [] {
        unblocked := waiters[..1];
        waiters := waiters[1..];
      }
      value := Wrap(value + 1);
    }
  }

  /** What can happen next: task p, running, tests the value (for the first time or again), or someone ups. */
  datatype Event = Test(p: nat) | Up

  /**
   A semaphore in use: `woken` are the tasks unblocked that have not tested again; `ups` and `downs` count the
   completed operations; `joined` and `left` are the tasks that joined and left the queue, in order.
   */
  datatype System = System(sema: Sema, woken: set<nat>, initial: Word, ups: nat, downs: nat,
                           joined: seq<nat>, left: seq<nat>)

  /** A blocked task does not run. */
  predicate Enabled(y: System, e: Event) {
    e.Test? ==> e.p !in y.sema.waiters
  }

  function Apply(y: System, e: Event): System {
    match e
    case Test(p) =>
      var taken := y.sema.value != 0;
      y.(sema := Tested(y.sema, p), woken := y.woken - {p},
         downs := if taken then y.downs + 1 else y.downs,
         joined := if taken then y.joined else y.joined + [p])
    case Up =>
      var front := if y.sema.waiters == [] then [] else y.sema.waiters[..1];
      y.(sema := Raised(y.sema), woken := y.woken + (set p | p in front), ups := y.ups + 1, left := y.left + front)
  }

  function Step(y: System, e: Event): System {
    if Enabled(y, e) then Apply(y, e) else y
  }

  function Run(y: System, es: seq<Event>): System
    decreases |es|
  {
    if es == [] then y else Run(Step(y, es[0]), es[1..])
  }

  function Start(initial: Word): System {
    System(Sema(initial, []), {}, initial, 0, 0, [], [])
  }

  ghost predicate Inv(y: System) {
    // the value counts, without going below zero
    && 0 <= y.initial + y.ups - y.downs && y.sema.value == Wrap(y.initial + y.ups - y.downs)
    // a task is in the queue at most once, and not while it is awake
    && Distinct(y.sema.waiters) && (forall p :: p in y.sema.waiters ==> p !in y.woken)
    // first come, first woken
    && y.joined == y.left + y.sema.waiters
    // no wake-up is lost
    && (y.sema.waiters != [] ==> y.sema.value <= |y.woken|)
  }

  lemma TestKeeps(y: System, p: nat)
    requires Inv(y) && p !in y.sema.waiters
    ensures Inv(Apply(y, Test(p)))
  {
    hide Wrap;
    WrapStep(y.initial + y.ups - y.downs, -1);
    var y' := Apply(y, Test(p));
    if y.sema.value == 0 {
      assert y'.joined == y'.left + y'.sema.waiters;
    } else {
      assert y.initial + y.ups - y.downs > 0 by {
        WrapSmall(0);
      }
      WrapSmall(y.sema.value - 1);
      assert y'.woken == y.woken || y.woken == y'.woken + {p};
    }
  }

  lemma UpKeeps(y: System)
    requires Inv(y)
    ensures Inv(Apply(y, Up))
  {
    hide Wrap;
    WrapStep(y.initial + y.ups - y.downs, 1);
    var y' := Apply(y, Up);
    if y.sema.waiters != [] {
      var p := y.sema.waiters[0];
      assert y.sema.waiters == [p] + y'.sema.waiters && y.sema.waiters[..1] == [p];
      assert y'.woken == y.woken + {p};
      WrapBelow(y.sema.value + 1);
    }
  }

  lemma WrapBelow(x: nat)
    ensures Wrap(x) <= x
  {
  }

  lemma {:induction false} RunKeeps(y: System, es: seq<Event>)
    requires Inv(y)
    ensures Inv(Run(y, es))
    decreases |es|
  {
    hide Inv, Apply;
    if es != [] {
      if es[0] == Up {
        UpKeeps(y);
      } else if Enabled(y, es[0]) {
        TestKeeps(y, es[0].p);
      }
      RunKeeps(Step(y, es[0]), es[1..]);
    }
  }

  /** In every run: the value is what it should be, and tasks are woken in the order in which they queued. */
  lemma ValueCounts(initial: Word, es: seq<Event>)
    ensures var y := Run(Start(initial), es);
            && y.downs <= initial + y.ups && y.sema.value == Wrap(initial + y.ups - y.downs)
            && (initial + y.ups - y.downs < TWO_64 ==> y.sema.value == initial + y.ups - y.downs)
            && y.left <= y.joined
  {
    RunConst(Start(initial), es);
    StartInv(initial);
    RunKeeps(Start(initial), es);
    var y := Run(Start(initial), es);
    if initial + y.ups - y.downs < TWO_64 {
      WrapSmall(initial + y.ups - y.downs);
    }
  }

  lemma StartInv(initial: Word)
    ensures Inv(Start(initial))
  {
  }

  lemma {:induction false} RunConst(y: System, es: seq<Event>)
    ensures Run(y, es).initial == y.initial
    decreases |es|
  {
    if es != [] {
      RunConst(Step(y, es[0]), es[1..]);
    }
  }

  /** In every run, tasks stay queued beside a positive value only while some woken task is still to test. */
  lemma NoLostWakeUp(initial: Word, es: seq<Event>)
    ensures var y := Run(Start(initial), es);
            y.sema.waiters != [] ==> y.sema.value <= |y.woken| && (y.woken == {} ==> y.sema.value == 0)
  {
    StartInv(initial);
    RunKeeps(Start(initial), es);
  }

  /** A task that has tested is no longer among the woken. */
  lemma OneTest(y: System, p: nat)
    requires Inv(y)
    ensures var y1 := Step(y, Test(p)); Inv(y1) && y1.woken == y.woken - {p}
  {
    if Enabled(y, Test(p)) {
      TestKeeps(y, p);
    }
  }

  lemma {:induction false} TestsShrinkWoken(y: System, es: seq<Event>, p: nat)
    requires Inv(y) && Up !in es
    ensures p in Run(y, es).woken ==> p in y.woken && Test(p) !in es
    decreases |es|
  {
    hide Inv, Step;
    if es != [] {
      assert es[0].Test? && Up !in es[1..];
      OneTest(y, es[0].p);
      TestsShrinkWoken(Step(y, es[0]), es[1..], p);
    }
  }

  /**
   Once every woken task has tested again, with any other tasks testing in between, either nobody is queued or
   there is nothing to take.
   */
  lemma Settles(initial: Word, es: seq<Event>, tests: seq<Event>)
    requires Up !in tests && forall p :: p in Run(Start(initial), es).woken ==> Test(p) in tests
    ensures var y := Run(Run(Start(initial), es), tests); y.sema.waiters == [] || y.sema.value == 0
  {
    var y := Run(Start(initial), es);
    StartInv(initial);
    RunKeeps(Start(initial), es);
    RunKeeps(y, tests);
    forall p | p in Run(y, tests).woken
      ensures false
    {
      TestsShrinkWoken(y, tests, p);
    }
  }
}
