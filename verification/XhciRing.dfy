/**
 The rings that the kernel shares with the xHCI controller. Both sides tell new entries from old ones
 by a cycle bit that flips on every lap, so that no index or count is ever exchanged.
 */
module XhciRing {
  import opened Arithmetic
  import opened Options

  /** One transfer request block; the cycle bit is bit 0 of the control word, the type bits 10 to 15. */
  datatype Trb = Trb(ptr: nat, status: nat, control: nat)

  const TRB_LK_TC: nat := 2
  const TR_LINK: nat := 6
  const ER_TRANSFER: nat := 32
  const ER_COMMAND_COMPLETE: nat := 33
  const ER_PORT_STATUS_CHANGE: nat := 34

  function Cycle(t: Trb): nat {
    t.control % 2
  }

  function TrbType(t: Trb): nat {
    t.control / 1024 % 64
  }

  function TogglesCycle(t: Trb): bool {
    t.control / 2 % 2 == 1
  }

  /** `control |= cs`. */
  function Stamp(t: Trb, cs: nat): Trb
    requires cs < 2
  {
    if t.control % 2 == 0 then t.(control := t.control + cs) else t
  }

  /** Stamping carries the producer's cycle exactly when the bit was clear or is wanted set; it keeps the type. */
  lemma StampCycle(t: Trb, cs: nat)
    requires cs < 2
    ensures Cycle(Stamp(t, cs)) == cs <==> (Cycle(t) == 0 || cs == 1)
    ensures TrbType(Stamp(t, cs)) == TrbType(t)
  {
    assert t.control % 2 == 0 ==> (t.control + cs) / 2 == t.control / 2;
    assert t.control / 1024 == t.control / 2 / 512 && Stamp(t, cs).control / 1024 == Stamp(t, cs).control / 2 / 512;
  }

  function LinkControl(cs: nat): nat
    requires cs < 2
  {
    TRB_LK_TC + cs + TR_LINK * 1024
  }

  // ---------------------------------------------------------------- totals and (index, cycle) pairs

  /** Where entry number t goes in a ring of n entries. */
  function Slot(t: nat, n: nat): (i: nat)
    requires n > 0
    ensures i < n
  {
    t % n
  }

  /** The cycle bit of entry number t: 1 on the first lap, then alternating. */
  function Phase(t: nat, n: nat): (c: nat)
    requires n > 0
    ensures c < 2
  {
    1 - t / n % 2
  }

  /** Stepping the pair (index, cycle) as the code does counts entries. */
  lemma StepCounts(t: nat, n: nat)
    requires n > 0
    ensures Slot(t, n) + 1 == n ==> Slot(t + 1, n) == 0 && Phase(t + 1, n) == 1 - Phase(t, n)
    ensures Slot(t, n) + 1 < n ==> Slot(t + 1, n) == Slot(t, n) + 1 && Phase(t + 1, n) == Phase(t, n)
  {
    var q, r := t / n, t % n;
    assert t == q * n + r;
    if r + 1 == n {
      assert t + 1 == (q + 1) * n + 0;
      QuotientOf(q + 1, 0, n);
    } else {
      QuotientOf(q, r + 1, n);
    }
  }

  lemma OneLapOn(t: nat, n: nat)
    requires n > 0
    ensures Slot(t + n, n) == Slot(t, n) && Phase(t + n, n) == 1 - Phase(t, n)
  {
    var q, r := t / n, t % n;
    assert t == q * n + r && t + n == (q + 1) * n + r;
    QuotientOf(q + 1, r, n);
  }

  /** The pair identifies a total within any window of one lap: entries less than a lap apart do not collide. */
  lemma NoCollision(t: nat, u: nat, n: nat)
    requires 0 < n && t < u < t + n
    ensures Slot(t, n) != Slot(u, n)
  {
    var d := u / n - t / n;
    assert n * d == n * (u / n) - n * (t / n) == u - t - (u % n - t % n);
    Multiple(n, d);
  }

  lemma FirstLap(t: nat, n: nat)
    requires t < n
    ensures Slot(t, n) == t && Phase(t, n) == 1
  {
    QuotientOf(0, t, n);
  }

  // ---------------------------------------------------------------- what the slots hold

  /** Each entry carries the cycle bit of its lap. */
  ghost predicate Tagged(log: seq<Trb>, n: nat)
    requires n > 0
  {
    forall t :: 0 <= t < |log| ==> Cycle(log[t]) == Phase(t, n)
  }

  /** The slots hold the latest lap of the log; those not yet written have cycle bit 0. */
  ghost predicate Latest(slots: seq<Trb>, log: seq<Trb>)
    requires |slots| > 0
  {
    && (forall t :: 0 <= t < |log| && |log| - |slots| <= t ==> slots[Slot(t, |slots|)] == log[t])
    && (forall k :: |log| <= k < |slots| ==> Cycle(slots[k]) == 0)
  }

  lemma WriteKeepsLatest(slots: seq<Trb>, log: seq<Trb>, e: Trb)
    requires |slots| > 0 && Latest(slots, log) && Tagged(log, |slots|) && Cycle(e) == Phase(|log|, |slots|)
    ensures Latest(slots[Slot(|log|, |slots|) := e], log + [e]) && Tagged(log + [e], |slots|)
  {
    hide Slot, Phase, Cycle;
    var n, log', k := |slots|, log + [e], Slot(|log|, |slots|);
    forall t | 0 <= t < |log'| && |log'| - n <= t
      ensures slots[k := e][Slot(t, n)] == log'[t]
    {
      if t < |log| {
        NoCollision(t, |log|, n);
      }
    }
    if |log| < n {
      FirstLap(|log|, n);
    }
  }

  /**
   The cycle test at the reader's index is exact: with at most one lap outstanding it succeeds if and
   only if an entry is waiting there, and then it is the oldest one not yet read.
   */
  lemma CycleTellsNew(slots: seq<Trb>, log: seq<Trb>, done: nat)
    requires |slots| > 0 && Latest(slots, log) && Tagged(log, |slots|) && done <= |log| <= done + |slots|
    ensures var t := slots[Slot(done, |slots|)];
            && (Cycle(t) == Phase(done, |slots|) <==> done < |log|)
            && (done < |log| ==> t == log[done])
  {
    hide Slot, Phase, Cycle;
    var n := |slots|;
    if done == |log| {
      if done >= n {
        OneLapOn(done - n, n);
        assert slots[Slot(done - n, n)] == log[done - n];
      } else {
        FirstLap(done, n);
      }
    }
  }

  // ---------------------------------------------------------------- the event ring

  function OfType(log: seq<Trb>, ty: nat): (r: seq<Trb>)
  {
    if log == [] then []
    else OfType(log[..|log| - 1], ty) + if TrbType(log[|log| - 1]) == ty then [log[|log| - 1]] else []
  }

  lemma OfOne(t: Trb, ty: nat)
    ensures OfType([t], ty) == if TrbType(t) == ty then [t] else []
  {
    assert [t][..0] == [];
  }

  /** A connection event: the port, and whether a device is there. */
  datatype PortChange = PortChange(port: nat, connected: bool)

  /** What is written back to the register of a port. */
  datatype PortAck = PortAck(port: nat, value: nat)

  /** The port that an event names, counted from 0 in 32 bits. */
  function PortOf(t: Trb): nat {
    (t.ptr / 0x100_0000 % 0x100 + 0xFFFF_FFFF) % 0x1_0000_0000
  }

  /** CSC: the connection has changed. */
  predicate ConnectChanged(portsc: nat) {
    portsc / 0x2_0000 % 2 == 1
  }

  /** CCS: a device is there. */
  predicate Connected(portsc: nat) {
    portsc % 2 == 1
  }

  /** PED and PR are cleared, and the link state is set to 1. */
  function Acknowledged(portsc: nat): nat {
    portsc - portsc / 2 % 2 * 2 - portsc / 16 % 2 * 16 - portsc / 32 % 16 * 32 + 32
  }

  /** What a port event makes of the register: a connection event, if the connection changed. */
  function Change(t: Trb, portsc: nat): seq<PortChange> {
    if TrbType(t) == ER_PORT_STATUS_CHANGE && ConnectChanged(portsc)
    then [PortChange(PortOf(t), Connected(portsc))] else []
  }

  function Ack(t: Trb, portsc: nat): seq<PortAck> {
    if TrbType(t) == ER_PORT_STATUS_CHANGE then [PortAck(PortOf(t), Acknowledged(portsc))] else []
  }

  /** The registers of the ports: the value of that of a port when it is read for an event. */
  type PortRegs = (nat, nat) -> nat

  /** The connection events of a log that starts with event number lo. */
  function Changes(log: seq<Trb>, lo: nat, regs: PortRegs): seq<PortChange> {
    if log == [] then []
    else
      var t, k := log[|log| - 1], lo + |log| - 1;
      Changes(log[..|log| - 1], lo, regs) + Change(t, regs(k, PortOf(t)))
  }

  function Acks(log: seq<Trb>, lo: nat, regs: PortRegs): seq<PortAck> {
    if log == [] then []
    else
      var t, k := log[|log| - 1], lo + |log| - 1;
      Acks(log[..|log| - 1], lo, regs) + Ack(t, regs(k, PortOf(t)))
  }

  /** The three software queues that events are sorted into, and what is written to the ports. */
  datatype Queues = Queues(xfers: seq<Trb>, cmds: seq<Trb>, ports: seq<PortChange>, acks: seq<PortAck>)

  function Delivered(q: Queues, log: seq<Trb>, lo: nat, regs: PortRegs): Queues {
    Queues(q.xfers + OfType(log, ER_TRANSFER), q.cmds + OfType(log, ER_COMMAND_COMPLETE),
        q.ports + Changes(log, lo, regs), q.acks + Acks(log, lo, regs))
  }

  lemma DeliverOneMore(q: Queues, log: seq<Trb>, lo: nat, hi: nat, regs: PortRegs)
    requires lo <= hi < |log|
    ensures Delivered(Delivered(q, log[lo..hi], lo, regs), [log[hi]], hi, regs) ==
            Delivered(q, log[lo..hi + 1], lo, regs)
  {
    hide OfType, Changes, Acks;
    OneMore(log, lo, hi, ER_TRANSFER);
    OneMore(log, lo, hi, ER_COMMAND_COMPLETE);
    OneMoreChange(log, lo, hi, regs);
  }

  lemma ChangeOfOne(t: Trb, lo: nat, regs: PortRegs)
    ensures Changes([t], lo, regs) == Change(t, regs(lo, PortOf(t)))
    ensures Acks([t], lo, regs) == Ack(t, regs(lo, PortOf(t)))
  {
    assert [t][..0] == [];
  }

  lemma OneMoreChange(log: seq<Trb>, lo: nat, hi: nat, regs: PortRegs)
    requires lo <= hi < |log|
    ensures Changes(log[lo..hi + 1], lo, regs) == Changes(log[lo..hi], lo, regs) + Changes([log[hi]], hi, regs)
    ensures Acks(log[lo..hi + 1], lo, regs) == Acks(log[lo..hi], lo, regs) + Acks([log[hi]], hi, regs)
  {
    hide Change, Ack, PortOf;
    var s := log[lo..hi + 1];
    assert s[..|s| - 1] == log[lo..hi] && s[|s| - 1] == log[hi];
    ChangeOfOne(log[hi], hi, regs);
  }

  // ---------------------------------------------------------------- what an event is, and where it goes

  /** The fields of a control word: the cycle bit in bit 0, "toggle cycle" in bit 1. */
  lemma LowBitsAre(t: Trb, high: nat, tc: nat, c: nat)
    requires t.control == high * 4 + tc * 2 + c && tc < 2 && c < 2
    ensures Cycle(t) == c && (TogglesCycle(t) <==> tc == 1)
  {
    QuotientOf(high * 2 + tc, c, 2);
    QuotientOf(high, tc, 2);
  }

  /** The type in bits 10 to 15. */
  lemma TypeIs(t: Trb, high: nat, ty: nat, low: nat)
    requires t.control == high * 0x1_0000 + ty * 0x400 + low && ty < 64 && low < 0x400
    ensures TrbType(t) == ty
  {
    QuotientOf(high * 64 + ty, low, 0x400);
    QuotientOf(high, ty, 64);
  }

  /** The port number in bits 24 to 31 of a port event, counted from 1; number 0 would wrap around. */
  lemma PortIs(t: Trb, high: nat, id: nat, low: nat)
    requires t.ptr == high * 0x1_0000_0000 + id * 0x100_0000 + low && id < 0x100 && low < 0x100_0000
    ensures 0 < id ==> PortOf(t) + 1 == id
    ensures id == 0 ==> PortOf(t) == 0xFFFF_FFFF
  {
    QuotientOf(high * 0x100 + id, low, 0x100_0000);
    QuotientOf(high, id, 0x100);
  }

  /** CSC is bit 17 of the register, CCS bit 0. */
  lemma RegisterSays(portsc: nat, high: nat, csc: nat, mid: nat, ccs: nat)
    requires portsc == high * 0x4_0000 + csc * 0x2_0000 + mid * 2 + ccs && csc < 2 && mid < 0x1_0000 && ccs < 2
    ensures ConnectChanged(portsc) <==> csc == 1
    ensures Connected(portsc) <==> ccs == 1
  {
    QuotientOf(high * 2 + csc, mid * 2 + ccs, 0x2_0000);
    QuotientOf(high, csc, 2);
    QuotientOf(high * 0x2_0000 + csc * 0x1_0000 + mid, ccs, 2);
  }

  /**
   What is written back leaves the change bits as they were read, which clears them, and neither disables (bit 1) nor
   resets (bit 4) the port; the link state in bits 5 to 8 becomes 1.
   */
  lemma AcknowledgedIs(portsc: nat, high: nat, pls: nat, pr: nat, mid: nat, ped: nat, ccs: nat)
    requires portsc == high * 0x200 + pls * 0x20 + pr * 0x10 + mid * 4 + ped * 2 + ccs
    requires pls < 16 && pr < 2 && mid < 4 && ped < 2 && ccs < 2
    ensures Acknowledged(portsc) == high * 0x200 + 0x20 + mid * 4 + ccs
  {
    QuotientOf(high * 0x100 + pls * 0x10 + pr * 8 + mid * 2 + ped, ccs, 2);
    QuotientOf(high * 0x80 + pls * 8 + pr * 4 + mid, ped, 2);
    QuotientOf(high * 0x20 + pls * 2 + pr, mid * 4 + ped * 2 + ccs, 0x10);
    QuotientOf(high * 0x10 + pls, pr, 2);
    QuotientOf(high * 0x10 + pls, pr * 0x10 + mid * 4 + ped * 2 + ccs, 0x20);
    QuotientOf(high, pls, 0x10);
  }

  /**
   Where one event goes, by the number in its type field: 32 to the transfer queue, 33 to the command queue, as it is;
   34, for port number id, adds the connection event of port id - 1, if that port's register shows a change, and no
   other; and that register is written. Other types go nowhere.
   */
  lemma EventGoesTo(q: Queues, t: Trb, k: nat, regs: PortRegs, high: nat, ty: nat, low: nat,
          high': nat, id: nat, low': nat)
    requires t.control == high * 0x1_0000 + ty * 0x400 + low && ty < 64 && low < 0x400
    requires t.ptr == high' * 0x1_0000_0000 + id * 0x100_0000 + low' && 1 <= id < 0x100 && low' < 0x100_0000
    ensures var r := regs(k, id - 1);
            Delivered(q, [t], k, regs) ==
              if ty == 32 then q.(xfers := q.xfers + [t])
              else if ty == 33 then q.(cmds := q.cmds + [t])
              else if ty == 34 then
                q.(ports := q.ports + (if ConnectChanged(r) then [PortChange(id - 1, Connected(r))] else []),
                   acks := q.acks + [PortAck(id - 1, Acknowledged(r))])
              else q
  {
    TypeIs(t, high, ty, low);
    PortIs(t, high', id, low');
    OfOne(t, ER_TRANSFER);
    OfOne(t, ER_COMMAND_COMPLETE);
    ChangeOfOne(t, k, regs);
    hide OfType, Changes, Acks, PortOf, TrbType, ConnectChanged, Connected, Acknowledged;
    assert q.xfers + [] == q.xfers && q.cmds + [] == q.cmds && q.ports + [] == q.ports && q.acks + [] == q.acks;
  }

  lemma {:induction false} ChangesGrow(log: seq<Trb>, i: nat, lo: nat, regs: PortRegs)
    requires i <= |log|
    ensures Changes(log[..i], lo, regs) <= Changes(log, lo, regs)
  {
    hide Change, PortOf;
    if i == |log| {
      assert log[..i] == log;
    } else {
      ChangesGrow(log[..|log| - 1], i, lo, regs);
      assert log[..|log| - 1][..i] == log[..i];
    }
  }

  lemma {:induction false} OfTypeGrows(log: seq<Trb>, i: nat, ty: nat)
    requires i <= |log|
    ensures OfType(log[..i], ty) <= OfType(log, ty)
  {
    hide TrbType;
    if i == |log| {
      assert log[..i] == log;
    } else {
      OfTypeGrows(log[..|log| - 1], i, ty);
      assert log[..|log| - 1][..i] == log[..i];
    }
  }

  /** Every event of a log stands in its queue at its rank, which is the number of those before it that went there. */
  lemma EventRank(q: Queues, log: seq<Trb>, i: nat, lo: nat, regs: PortRegs)
    requires i < |log|
    ensures var t, d := log[i], Delivered(q, log, lo, regs);
            var before := Delivered(q, log[..i], lo, regs);
            && (TrbType(t) == ER_TRANSFER ==> |before.xfers| < |d.xfers| && d.xfers[|before.xfers|] == t)
            && (TrbType(t) == ER_COMMAND_COMPLETE ==> |before.cmds| < |d.cmds| && d.cmds[|before.cmds|] == t)
            && (TrbType(t) == ER_PORT_STATUS_CHANGE && ConnectChanged(regs(lo + i, PortOf(t))) ==>
                  && |before.ports| < |d.ports|
                  && d.ports[|before.ports|] == PortChange(PortOf(t), Connected(regs(lo + i, PortOf(t)))))
  {
    var upto := log[..i + 1];
    assert upto[..i] == log[..i] && upto[i] == log[i];
    ChangesGrow(log, i + 1, lo, regs);
    OfTypeGrows(log, i + 1, ER_TRANSFER);
    OfTypeGrows(log, i + 1, ER_COMMAND_COMPLETE);
    hide PortOf, TrbType, ConnectChanged, Connected, Acks;
  }

  /**
   The controller writes events, the kernel reads them. `written` counts and remembers what the controller
   wrote, `handled` how many of them the kernel has taken; neither is stored anywhere in the ring.
   */
  class EventRing {
    const trbs: array<Trb>
    var dequeue: nat
    var cs: nat
    var xferEvents: seq<Trb>
    var cmdEvents: seq<Trb>
    var portEvents: seq<PortChange>
    var portAcks: seq<PortAck>
    var written: seq<Trb>
    var handled: nat

    ghost predicate Valid()
      reads this, trbs
    {
      && trbs.Length > 0 && Latest(trbs[..], written) && Tagged(written, trbs.Length)
      && handled <= |written| <= handled + trbs.Length
      && dequeue == Slot(handled, trbs.Length) && cs == Phase(handled, trbs.Length)
    }

    ghost function Delivery(): Queues
      reads this
    {
      Queues(xferEvents, cmdEvents, portEvents, portAcks)
    }

    /** The ring as the set-up leaves it: zeroed, reading at index 0 with cycle state 1. */
    constructor (count: nat)
      requires count > 0
      ensures Valid() && fresh(trbs) && trbs.Length == count && written == [] && handled == 0
      ensures xferEvents == [] && cmdEvents == [] && portEvents == [] && portAcks == []
    {
      trbs := new Trb[count](_ => Trb(0, 0, 0));
      dequeue, cs, written, handled := 0, 1, [], 0;
      xferEvents, cmdEvents, portEvents, portAcks := [], [], [], [];
      FirstLap(0, count);
    }

    /** The controller's side (section 4.9.4 of the xHCI specification): it writes when a slot is free. */
    method ControllerWrites(e: Trb)
      requires Valid()
      modifies trbs, `written
      ensures Valid()
      ensures written == old(written) + Accepted(old(written), e, handled + trbs.Length)
    {
      hide Slot, Phase, Cycle;
      if |written| < handled + trbs.Length {
        var stamped := WithCycle(e, Phase(|written|, trbs.Length));
        WriteKeepsLatest(trbs[..], written, stamped);
        trbs[Slot(|written|, trbs.Length)] := stamped;
        written := written + [stamped];
      }
    }

    function Accepted(log: seq<Trb>, e: Trb, room: nat): seq<Trb>
      requires trbs.Length > 0
    {
      if |log| < room then [WithCycle(e, Phase(|log|, trbs.Length))] else []
    }

    /** What the controller does between two looks of the kernel: it writes what fits of a burst. */
    method ControllerBurst(burst: seq<Trb>)
      requires Valid()
      modifies trbs, `written
      ensures Valid() && old(written) <= written
    {
      for i := 0 to |burst|
        invariant Valid() && old(written) <= written
      {
        ControllerWrites(burst[i]);
      }
    }

    /** Takes one event: queue it by type, step the read position. */
    method TakeOne(trb: Trb, regs: PortRegs)
      requires Valid() && handled < |written| && trb == written[handled]
      modifies this
      ensures Valid() && written == old(written) && handled == old(handled) + 1
      ensures Delivery() == Delivered(old(Delivery()), [trb], old(handled), regs)
    {
      hide Slot, Phase, Cycle, Latest, Tagged;
      OfOne(trb, ER_TRANSFER);
      OfOne(trb, ER_COMMAND_COMPLETE);
      ChangeOfOne(trb, handled, regs);
      hide OfType, Changes, Acks, PortOf, ConnectChanged, Connected, Acknowledged;
      var ty := TrbType(trb);
      if ty == ER_TRANSFER {
        xferEvents := xferEvents + [trb];
      } else if ty == ER_COMMAND_COMPLETE {
        cmdEvents := cmdEvents + [trb];
      } else if ty == ER_PORT_STATUS_CHANGE {
        var port := PortOf(trb);
        var portsc := regs(handled, port);
        if ConnectChanged(portsc) {
          portEvents := portEvents + [PortChange(port, Connected(portsc))];
        }
        portAcks := portAcks + [PortAck(port, Acknowledged(portsc))];
      }
      StepCounts(handled, trbs.Length);
      var d := dequeue + 1;
      if d == trbs.Length {
        d := 0;
        cs := 1 - cs;
      }
      dequeue := d;
      handled := handled + 1;
    }

    /**
     The interrupt-time loop. `bursts[r]` is what the controller tries to add just before look number r, and
     `regs(k, port)` what the register of a port says when it is read for event number k.
     Every event, also those that arrive meanwhile, is taken exactly once and in order, and the loop stops
     exactly when nothing is left.
     */
    method ProcessEvents(bursts: seq<seq<Trb>>, regs: PortRegs)
      requires Valid()
      modifies this, trbs
      ensures Valid() && old(written) <= written && handled == |written|
      ensures Delivery() == Delivered(old(Delivery()), written[old(handled)..], old(handled), regs)
    {
      hide Slot, Phase, Cycle, Latest, Tagged, Delivered, Delivery;
      ghost var q, h := Delivery(), handled;
      assert q == Delivered(q, written[h..h], h, regs) by { DeliveredNone(q, h, regs); }
      var r := 0;
      while true
        invariant Valid() && old(written) <= written && h <= handled
        invariant Delivery() == Delivered(q, written[h..handled], h, regs)
        decreases if r < |bursts| then |bursts| - r else 0, |written| - handled
      {
        if r < |bursts| {
          AdmitBurst(bursts[r], h, q, regs);
        }
        r := r + 1;
        var trb := trbs[dequeue];
        CycleTellsNew(trbs[..], written, handled);
        if Cycle(trb) != cs {
          assert written[h..] == written[h..handled];
          return;
        }
        DeliverOneMore(q, written, h, handled, regs);
        TakeOne(trb, regs);
      }
    }

    method AdmitBurst(burst: seq<Trb>, ghost h: nat, ghost q: Queues, ghost regs: PortRegs)
      requires Valid() && h <= handled && Delivery() == Delivered(q, written[h..handled], h, regs)
      modifies trbs, `written
      ensures Valid() && old(written) <= written
      ensures Delivery() == Delivered(q, written[h..handled], h, regs)
    {
      ghost var before := written;
      ControllerBurst(burst);
      assert written[h..handled] == before[h..handled];
    }
  }

  lemma DeliveredNone(q: Queues, lo: nat, regs: PortRegs)
    ensures Delivered(q, [], lo, regs) == q
  {
  }

  function WithCycle(t: Trb, c: nat): (r: Trb)
    requires c < 2
    ensures Cycle(r) == c && TrbType(r) == TrbType(t)
  {
    assert t.control / 2 * 2 / 2 == (t.control / 2 * 2 + c) / 2 == t.control / 2;
    assert t.control / 1024 == t.control / 2 / 512 &&
        (t.control / 2 * 2 + c) / 1024 == (t.control / 2 * 2 + c) / 2 / 512;
    t.(control := t.control / 2 * 2 + c)
  }

  lemma OneMore(log: seq<Trb>, lo: nat, hi: nat, ty: nat)
    requires lo <= hi < |log|
    ensures OfType(log[lo..hi + 1], ty) == OfType(log[lo..hi], ty) + OfType([log[hi]], ty)
  {
    var s := log[lo..hi + 1];
    assert s[..|s| - 1] == log[lo..hi] && s[|s| - 1] == log[hi];
    assert [log[hi]][..0] == [];
  }

  // ---------------------------------------------------------------- command and transfer rings

  /** The memory and the producer's registers; the last slot is for the Link TRB. */
  datatype Ring = Ring(trbs: seq<Trb>, enqueue: nat, cs: nat)

  /** xhci_trb_queue, on values. */
  function Queued(r: Ring, trb: Trb): (r': Ring)
    requires r.enqueue < |r.trbs| - 1 && r.cs < 2
    ensures |r'.trbs| == |r.trbs|
  {
    var trbs, e, last := r.trbs[r.enqueue := Stamp(trb, r.cs)], r.enqueue + 1, |r.trbs| - 1;
    if e == last then
      Ring(trbs[last := trbs[last].(control := LinkControl(r.cs))], 0, 1 - r.cs)
    else
      Ring(trbs, e, r.cs)
  }

  class TransferRing {
    const trbs: array<Trb>
    var enqueue: nat
    var cs: nat

    ghost function State(): Ring
      reads this, trbs
    {
      Ring(trbs[..], enqueue, cs)
    }

    constructor (count: nat)
      requires count > 1
      ensures fresh(trbs) && State() == EmptyRing(count)
    {
      trbs := new Trb[count](_ => Trb(0, 0, 0));
      enqueue, cs := 0, 1;
      new;
      assert trbs[..] == EmptyRing(count).trbs;
    }

    method TrbQueue(trb: Trb)
      requires enqueue < trbs.Length - 1 && cs < 2
      modifies this, trbs
      ensures State() == Queued(old(State()), trb)
    {
      trbs[enqueue] := Stamp(trb, cs);
      enqueue := enqueue + 1;
      if enqueue == trbs.Length - 1 {
        trbs[enqueue] := trbs[enqueue].(control := LinkControl(cs));
        enqueue := 0;
        cs := 1 - cs;
      }
    }
  }

  function EmptyRing(count: nat): Ring {
    Ring(seq(count, _ => Trb(0, 0, 0)), 0, 1)
  }

  /** The controller as a reader (section 4.9.2): its dequeue index and its consumer cycle state. */
  datatype Reader = Reader(index: nat, ccs: nat)

  /** One look: nothing when the cycle bit differs, a Link is followed, anything else is taken. */
  function Look(trbs: seq<Trb>, r: Reader): (Option<Trb>, Reader)
    requires r.index < |trbs| && r.ccs < 2
  {
    var t := trbs[r.index];
    if Cycle(t) != r.ccs then (None, r)
    else if TrbType(t) == TR_LINK then (None, Reader(0, if TogglesCycle(t) then 1 - r.ccs else r.ccs))
    else (Some(t), r.(index := r.index + 1))
  }

  /** The ring after queueing `log`: registers count it, data slots hold its latest lap, the Link its laps. */
  ghost predicate Reflects(r: Ring, log: seq<Trb>) {
    && |r.trbs| > 1
    && var n := |r.trbs| - 1;
       && r.enqueue == Slot(|log|, n) && r.cs == Phase(|log|, n)
       && Latest(r.trbs[..n], log) && Tagged(log, n)
       && (forall t :: t in log ==> TrbType(t) != TR_LINK)
       && Cycle(r.trbs[n]) == 1 - r.cs
       && (|log| >= n ==> TrbType(r.trbs[n]) == TR_LINK && TogglesCycle(r.trbs[n]))
  }

  /** The reader has taken `done` entries: it is at the next one, or still in front of the Link. */
  ghost predicate At(r: Reader, done: nat, n: nat)
    requires n > 0
  {
    || (r.index == Slot(done, n) && r.ccs == Phase(done, n))
    || (done > 0 && Slot(done, n) == 0 && r.index == n && r.ccs == 1 - Phase(done, n))
  }

  lemma EmptyReflects(count: nat)
    requires count > 1
    ensures Reflects(EmptyRing(count), []) && At(Reader(0, 1), 0, count - 1)
  {
    FirstLap(0, count - 1);
  }

  lemma LinkIs(cs: nat, t: Trb)
    requires cs < 2 && t.control == LinkControl(cs)
    ensures Cycle(t) == cs && TrbType(t) == TR_LINK && TogglesCycle(t)
  {
  }

  lemma QueueKeeps(r: Ring, log: seq<Trb>, trb: Trb)
    requires Reflects(r, log) && Cycle(trb) == 0 && TrbType(trb) != TR_LINK
    ensures Reflects(Queued(r, trb), log + [Stamp(trb, r.cs)])
  {
    hide Slot, Phase, Cycle, TrbType, TogglesCycle, Latest, Tagged, LinkControl, Stamp;
    var n, e, r' := |r.trbs| - 1, Stamp(trb, r.cs), Queued(r, trb);
    StampCycle(trb, r.cs);
    WriteKeepsLatest(r.trbs[..n], log, e);
    assert r'.trbs[..n] == r.trbs[..n][r.enqueue := e];
    StepCounts(|log|, n);
    if r.enqueue + 1 == n {
      LinkIs(r.cs, r'.trbs[n]);
    }
    FewEntries(log, n);
  }

  lemma FewEntries(log: seq<Trb>, n: nat)
    requires n > 0
    ensures |log| < n && Slot(|log|, n) + 1 < n ==> |log| + 1 < n
  {
    if |log| < n {
      FirstLap(|log|, n);
    }
  }

  /**
   What one look does, exactly. At a data slot it takes the oldest entry if there is one. In front of the
   Link it moves on, unless a full further lap has been queued meanwhile: then the Link already carries the
   next lap's cycle and the reader sees nothing, however much is waiting.
   */
  lemma LookExact(r: Ring, log: seq<Trb>, rd: Reader, done: nat)
    requires Reflects(r, log) && At(rd, done, |r.trbs| - 1) && done <= |log| <= done + |r.trbs| - 1
    ensures rd.index < |r.trbs| && rd.ccs < 2
    ensures var n, (out, rd') := |r.trbs| - 1, Look(r.trbs, rd);
            if rd.index < n then
              if done < |log| then out == Some(log[done]) && At(rd', done + 1, n) else out == None && rd' == rd
            else
              out == None && if |log| < done + n then At(rd', done, n) && rd'.index == 0 else rd' == rd
  {
    hide Slot, Phase, Cycle, TrbType, TogglesCycle, Latest, Tagged;
    var n := |r.trbs| - 1;
    if rd.index < n {
      CycleTellsNew(r.trbs[..n], log, done);
      assert r.trbs[rd.index] == r.trbs[..n][rd.index];
      StepCounts(done, n);
    } else {
      SameLap(done, |log|, n);
    }
  }

  /** From the start of a lap, the phase changes at the next lap and not before. */
  lemma SameLap(t: nat, u: nat, n: nat)
    requires n > 0 && Slot(t, n) == 0 && t <= u <= t + n
    ensures Phase(u, n) == Phase(t, n) <==> u < t + n
    ensures t > 0 ==> t >= n
  {
    if u == t + n {
      OneLapOn(t, n);
    } else {
      assert u == t / n * n + (u - t);
      QuotientOf(t / n, u - t, n);
    }
    if t < n {
      FirstLap(t, n);
    }
  }

  datatype Op = Submit(trb: Trb) | Fetch

  /** Both sides at work: `log` is what was queued, `got` what the reader has taken. */
  datatype World = World(ring: Ring, reader: Reader, log: seq<Trb>, got: seq<Trb>)

  /** Room for one more: one data slot must stay free while the reader is in front of the Link. */
  predicate Room(w: World)
    requires |w.ring.trbs| > 1
  {
    var n := |w.ring.trbs| - 1;
    |w.log| - |w.got| < if w.reader.index == n then n - 1 else n
  }

  ghost predicate InStep(w: World) {
    && Reflects(w.ring, w.log) && |w.got| <= |w.log| && w.got == w.log[..|w.got|]
    && var n := |w.ring.trbs| - 1;
       At(w.reader, |w.got|, n) && |w.log| - |w.got| <= if w.reader.index == n then n - 1 else n
  }

  /** What the two sides may do: the driver submits plain entries when there is room. */
  predicate Enabled(w: World, op: Op) {
    match op
    case Submit(trb) =>
      w.ring.enqueue < |w.ring.trbs| - 1 && w.ring.cs < 2 && Cycle(trb) == 0 && TrbType(trb) != TR_LINK && Room(w)
    case Fetch => w.reader.index < |w.ring.trbs| && w.reader.ccs < 2
  }

  function Apply(w: World, op: Op): World
    requires Enabled(w, op)
  {
    match op
    case Submit(trb) => w.(ring := Queued(w.ring, trb), log := w.log + [Stamp(trb, w.ring.cs)])
    case Fetch =>
      var (out, rd) := Look(w.ring.trbs, w.reader);
      w.(reader := rd, got := if out.Some? then w.got + [out.value] else w.got)
  }

  function Run(w: World, ops: seq<Op>): World
    decreases |ops|
  {
    if ops == [] then w else Run(if Enabled(w, ops[0]) then Apply(w, ops[0]) else w, ops[1..])
  }

  lemma StepKeeps(w: World, op: Op)
    requires InStep(w) && Enabled(w, op)
    ensures InStep(Apply(w, op))
  {
    hide Slot, Phase, Cycle, TrbType, Reflects, Look, Queued, Stamp;
    match op
    case Submit(trb) =>
      QueueKeeps(w.ring, w.log, trb);
    case Fetch =>
      LookExact(w.ring, w.log, w.reader, |w.got|);
      assert |w.got| < |w.log| ==> w.log[..|w.got| + 1] == w.log[..|w.got|] + [w.log[|w.got|]];
  }

  lemma {:induction false} RunKeeps(w: World, ops: seq<Op>)
    requires InStep(w)
    ensures InStep(Run(w, ops))
    decreases |ops|
  {
    hide InStep, Enabled, Apply;
    if ops != [] {
      if Enabled(w, ops[0]) {
        StepKeeps(w, ops[0]);
        RunKeeps(Apply(w, ops[0]), ops[1..]);
      } else {
        RunKeeps(w, ops[1..]);
      }
    }
  }

  function Start(count: nat): World {
    World(EmptyRing(count), Reader(0, 1), [], [])
  }

  /** In every interleaving the reader has taken exactly the first entries queued, in order, across every wrap. */
  lemma ReaderFollowsInOrder(count: nat, ops: seq<Op>)
    requires count > 1
    ensures var w := Run(Start(count), ops); InStep(w) && w.got <= w.log
  {
    EmptyReflects(count);
    RunKeeps(Start(count), ops);
  }

  /** A look is always possible; with an entry waiting, at most two looks take it, and otherwise none takes anything. */
  lemma ReaderDrains(w: World)
    requires InStep(w)
    ensures Enabled(w, Fetch) && Enabled(Apply(w, Fetch), Fetch)
    ensures var w1 := Apply(w, Fetch); var w2 := Apply(w1, Fetch); var k := |w.got|;
            if k == |w.log| then w1.got == w2.got == w.log else w1.got == w.log[..k + 1] || w2.got == w.log[..k + 1]
  {
    hide Reflects, At, Look, Slot, Phase;
    LookExact(w.ring, w.log, w.reader, |w.got|);
    var w1 := Apply(w, Fetch);
    StepKeeps(w, Fetch);
    LookExact(w1.ring, w1.log, w1.reader, |w1.got|);
  }

  /** Without the spare slot: a reader resting in front of the Link can be overrun and then never reads again. */
  lemma FullLapHidesEverything(r: Ring, log: seq<Trb>, rd: Reader, done: nat)
    requires Reflects(r, log) && At(rd, done, |r.trbs| - 1) && |log| == done + |r.trbs| - 1
    ensures rd.index < |r.trbs| && rd.ccs < 2
    ensures Look(r.trbs, rd) == (None, rd) <==> rd.index == |r.trbs| - 1
  {
    LookExact(r, log, rd, done);
  }

  lemma TakingMoves(trbs: seq<Trb>, r: Reader)
    requires r.index < |trbs| && r.ccs < 2
    ensures Look(trbs, r).0.Some? ==> Look(trbs, r).1 == r.(index := r.index + 1)
  {
    hide Cycle, TrbType, TogglesCycle;
  }

  predicate Plain(trb: Trb) {
    Cycle(trb) == 0 && TrbType(trb) != TR_LINK
  }

  function Submits(trbs: seq<Trb>): seq<Op> {
    if trbs == [] then [] else [Submit(trbs[0])] + Submits(trbs[1..])
  }

  function Fetches(k: nat): seq<Op> {
    if k == 0 then [] else [Fetch] + Fetches(k - 1)
  }

  lemma {:induction false} RunThen(w: World, ops: seq<Op>, rest: seq<Op>)
    ensures Run(w, ops + rest) == Run(Run(w, ops), rest)
    decreases |ops|
  {
    hide Enabled, Apply;
    if ops == [] {
      assert ops + rest == rest;
    } else {
      assert (ops + rest)[0] == ops[0] && (ops + rest)[1..] == ops[1..] + rest;
      RunThen(if Enabled(w, ops[0]) then Apply(w, ops[0]) else w, ops[1..], rest);
    }
  }

  lemma RunFirst(w: World, op: Op, rest: seq<Op>)
    requires Enabled(w, op)
    ensures Run(w, [op] + rest) == Run(Apply(w, op), rest)
  {
    hide Enabled, Apply;
    assert ([op] + rest)[1..] == rest;
  }

  lemma Registers(r: Ring, log: seq<Trb>)
    requires Reflects(r, log)
    ensures |r.trbs| > 1 && r.enqueue < |r.trbs| - 1 && r.cs < 2
  {
    hide Cycle, TrbType, TogglesCycle, Latest, Tagged;
  }

  /** n data slots, so many entries queued and taken, and the reader at this index. */
  ghost predicate Stands(w: World, n: nat, queued: nat, taken: nat, index: nat) {
    InStep(w) && |w.ring.trbs| == n + 1 && |w.log| == queued && |w.got| == taken && w.reader.index == index
  }

  lemma OneSubmitted(w: World, trb: Trb, n: nat, queued: nat, taken: nat, index: nat)
    requires Stands(w, n, queued, taken, index) && Plain(trb) && queued - taken < if index == n then n - 1 else n
    ensures Enabled(w, Submit(trb)) && Stands(Apply(w, Submit(trb)), n, queued + 1, taken, index)
  {
    hide Slot, Phase, Cycle, TrbType, Reflects, At, Queued, Stamp;
    Registers(w.ring, w.log);
    StepKeeps(w, Submit(trb));
  }

  lemma {:induction false} AllSubmitted(w: World, trbs: seq<Trb>, n: nat, queued: nat, taken: nat, index: nat)
    requires Stands(w, n, queued, taken, index) && forall t :: t in trbs ==> Plain(t)
    requires queued - taken + |trbs| <= if index == n then n - 1 else n
    ensures Stands(Run(w, Submits(trbs)), n, queued + |trbs|, taken, index)
    decreases |trbs|
  {
    hide Stands, Enabled, Apply, Plain;
    if trbs != [] {
      OneSubmitted(w, trbs[0], n, queued, taken, index);
      RunFirst(w, Submit(trbs[0]), Submits(trbs[1..]));
      AllSubmitted(Apply(w, Submit(trbs[0])), trbs[1..], n, queued + 1, taken, index);
    }
  }

  lemma OneFetched(w: World, n: nat, queued: nat, taken: nat, index: nat)
    requires Stands(w, n, queued, taken, index) && taken < queued && index < n
    ensures Enabled(w, Fetch) && Stands(Apply(w, Fetch), n, queued, taken + 1, index + 1)
  {
    hide Slot, Phase, Reflects, At, Look;
    LookExact(w.ring, w.log, w.reader, taken);
    TakingMoves(w.ring.trbs, w.reader);
    StepKeeps(w, Fetch);
  }

  lemma {:induction false} AllFetched(w: World, k: nat, n: nat, queued: nat, taken: nat, index: nat)
    requires Stands(w, n, queued, taken, index) && taken + k <= queued && index + k <= n
    ensures Stands(Run(w, Fetches(k)), n, queued, taken + k, index + k)
    decreases k
  {
    hide Stands, Enabled, Apply;
    if k > 0 {
      OneFetched(w, n, queued, taken, index);
      RunFirst(w, Fetch, Fetches(k - 1));
      AllFetched(Apply(w, Fetch), k - 1, n, queued, taken + 1, index + 1);
    }
  }

  /** The ring is filled and emptied, and then filled again but for the spare slot. */
  function IntoFullLap(first: seq<Trb>, second: seq<Trb>): seq<Op> {
    Submits(first) + Fetches(|first|) + Submits(second)
  }

  /**
   A run that gets there, for every size of ring, 16 among them, and all entries: the ring is filled and emptied,
   so that the controller rests in front of the Link, and queued up to the spare slot. The next entry, for which
   there is no room by the rule above, makes it that nothing is ever seen again.
   */
  lemma FullLapExample(count: nat, first: seq<Trb>, second: seq<Trb>, trb: Trb)
    requires count > 1 && |first| == count - 1 && |second| == count - 2
    requires Plain(trb) && (forall t :: t in first ==> Plain(t)) && forall t :: t in second ==> Plain(t)
    ensures var w := Run(Start(count), IntoFullLap(first, second));
            && InStep(w) && |w.ring.trbs| == count && w.ring.enqueue < |w.ring.trbs| - 1 && w.ring.cs < 2
            && w.reader.index == count - 1 && w.reader.ccs < 2 && !Room(w) && |w.log| - |w.got| == count - 2
            && Look(Queued(w.ring, trb).trbs, w.reader) == (None, w.reader)
  {
    hide Run, Stands, Plain, Submits, Fetches;
    var n := count - 1;
    StartStands(count);
    AllSubmitted(Start(count), first, n, 0, 0, 0);
    var w1 := Run(Start(count), Submits(first));
    AllFetched(w1, n, n, n, 0, 0);
    var w2 := Run(w1, Fetches(n));
    AllSubmitted(w2, second, n, n, n, n);
    RunThen(Start(count), Submits(first) + Fetches(n), Submits(second));
    RunThen(Start(count), Submits(first), Fetches(n));
    StuckInFront(Run(w2, Submits(second)), trb, n);
  }

  lemma StartStands(count: nat)
    requires count > 1
    ensures Stands(Start(count), count - 1, 0, 0, 0)
  {
    hide Reflects, At, Slot, Phase;
    EmptyReflects(count);
    assert |EmptyRing(count).trbs| == count;
  }

  lemma StuckInFront(w: World, trb: Trb, n: nat)
    requires n > 0 && Stands(w, n, 2 * n - 1, n, n) && Plain(trb)
    ensures InStep(w) && |w.ring.trbs| == n + 1 && w.ring.enqueue < n && w.ring.cs < 2 && w.reader.index == n &&
            w.reader.ccs < 2
    ensures !Room(w) && |w.log| - |w.got| == n - 1
    ensures Look(Queued(w.ring, trb).trbs, w.reader) == (None, w.reader)
  {
    hide Cycle, TrbType, Look, Queued, Stamp, Reflects, At, Slot, Phase;
    Registers(w.ring, w.log);
    QueueKeeps(w.ring, w.log, trb);
    FullLapHidesEverything(Queued(w.ring, trb), w.log + [Stamp(trb, w.ring.cs)], w.reader, n);
  }
}
