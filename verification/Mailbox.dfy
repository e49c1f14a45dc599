/**
 What the message-passing protocol is for: every task owns a mailbox, a message posted to it is
 taken once, and its sender is released only after the message has been copied out.

 The mailbox is an automaton over the visible events of a run. Nothing here knows of flags,
 waiting lists or locks.
 */
module Mailbox {
  import opened Words

  const RECV_FROM_ANY: int := -3

  datatype Message = Message(src: int, kind: int, payload: seq<Word>)

  /** What an observer sees of a run. */
  datatype Event =
    | Post(dst: int, m: Message)              // m.src puts its message into dst's mailbox
    | Take(dst: int, want: int, src: int)     // dst takes the message of src, having asked for want
    | Copy(dst: int, m: Message)              // dst has a copy of the message it took
    | Deliver(dst: int, m: Message)           // msg_recv returns m
    | Finish(src: int)                        // msg_send returns
    | Raise(dst: int)                         // an interrupt is reported to dst
    | Notify(dst: int)                        // msg_recv reports the interrupt
    | Leave(task: int)                        // a task ends

  datatype Outgoing = Nothing | Posted(dst: int, m: Message) | Taken(dst: int, m: Message) | Handed

  datatype Incoming = Empty | Holding(m: Message) | Ready(m: Message)

  datatype Box = Box(mail: map<int, seq<Message>>, out: map<int, Outgoing>, hand: map<int, Incoming>, intr: set<int>)

  datatype Verdict = Illegal | Legal(box: Box)

  function Mail(b: Box, p: int): seq<Message> {
    if p in b.mail then b.mail[p] else []
  }

  function Out(b: Box, p: int): Outgoing {
    if p in b.out then b.out[p] else Nothing
  }

  function Hand(b: Box, p: int): Incoming {
    if p in b.hand then b.hand[p] else Empty
  }

  /** The position of the oldest message from src. */
  function Find(q: seq<Message>, src: int): (k: nat)
    ensures k <= |q|
    ensures k < |q| ==> q[k].src == src
    ensures forall i :: 0 <= i < k ==> q[i].src != src
  {
    if q == [] || q[0].src == src then 0 else 1 + Find(q[1..], src)
  }

  function RemoveAt(q: seq<Message>, k: nat): seq<Message>
    requires k < |q|
  {
    q[..k] + q[k + 1..]
  }

  /** One event, judged. Under RECV_FROM_ANY the oldest message must be taken. */
  function Accept(b: Box, e: Event): Verdict {
    match e
    case Post(d, m) =>
      if Out(b, m.src) != Nothing then Illegal
      else Legal(b.(mail := b.mail[d := Mail(b, d) + [m]], out := b.out[m.src := Posted(d, m)]))
    case Take(d, want, s) =>
      var q := Mail(b, d);
      var k := if want == RECV_FROM_ANY then 0 else Find(q, want);
      if k >= |q| || q[k].src != s || Out(b, s) != Posted(d, q[k]) || Hand(b, d) != Empty then Illegal
      else Legal(b.(mail := b.mail[d := RemoveAt(q, k)],
                    out := b.out[s := Taken(d, q[k])], hand := b.hand[d := Holding(q[k])]))
    case Copy(d, m) =>
      if Hand(b, d) != Holding(m) || Out(b, m.src) != Taken(d, m) then Illegal
      else Legal(b.(out := b.out[m.src := Handed], hand := b.hand[d := Ready(m)]))
    case Deliver(d, m) =>
      if Hand(b, d) != Ready(m) then Illegal else Legal(b.(hand := b.hand[d := Empty]))
    case Finish(s) =>
      if Out(b, s) != Handed then Illegal else Legal(b.(out := b.out[s := Nothing]))
    case Raise(d) => Legal(b.(intr := b.intr + {d}))
    case Notify(d) =>
      if d !in b.intr || Hand(b, d) != Empty then Illegal else Legal(b.(intr := b.intr - {d}))
    case Leave(p) =>
      if Mail(b, p) != [] || Out(b, p) != Nothing || Hand(b, p) != Empty then Illegal
      else Legal(b.(intr := b.intr - {p}))
  }

  lemma PostEffect(b: Box, d: int, m: Message)
    requires Out(b, m.src) == Nothing
    ensures Accept(b, Post(d, m)).Legal?
    ensures var b' := Accept(b, Post(d, m)).box;
            && (forall q :: Mail(b', q) == if q == d then Mail(b, d) + [m] else Mail(b, q))
            && (forall q :: Out(b', q) == if q == m.src then Posted(d, m) else Out(b, q))
            && (forall q :: Hand(b', q) == Hand(b, q))
            && b'.intr == b.intr
  {
  }

  lemma TakeEffect(b: Box, d: int, want: int, k: nat)
    requires k < |Mail(b, d)| && k == if want == RECV_FROM_ANY then 0 else Find(Mail(b, d), want)
    requires Out(b, Mail(b, d)[k].src) == Posted(d, Mail(b, d)[k]) && Hand(b, d) == Empty
    ensures var m := Mail(b, d)[k];
            Accept(b, Take(d, want, m.src)).Legal?
            && var b' := Accept(b, Take(d, want, m.src)).box;
            && (forall q :: Mail(b', q) == if q == d then RemoveAt(Mail(b, d), k) else Mail(b, q))
            && (forall q :: Out(b', q) == if q == m.src then Taken(d, m) else Out(b, q))
            && (forall q :: Hand(b', q) == if q == d then Holding(m) else Hand(b, q))
            && b'.intr == b.intr
  {
  }

  lemma CopyEffect(b: Box, d: int, m: Message)
    requires Hand(b, d) == Holding(m) && Out(b, m.src) == Taken(d, m)
    ensures Accept(b, Copy(d, m)).Legal?
    ensures var b' := Accept(b, Copy(d, m)).box;
            && (forall q :: Mail(b', q) == Mail(b, q))
            && (forall q :: Out(b', q) == if q == m.src then Handed else Out(b, q))
            && (forall q :: Hand(b', q) == if q == d then Ready(m) else Hand(b, q))
            && b'.intr == b.intr
  {
  }

  function Judge(log: seq<Event>): Verdict {
    if log == [] then Legal(Box(map[], map[], map[], {}))
    else
      var before := Judge(log[..|log| - 1]);
      if before.Illegal? then Illegal else Accept(before.box, log[|log| - 1])
  }

  lemma JudgeAppend(log: seq<Event>, e: Event)
    ensures Judge(log + [e]) == if Judge(log).Illegal? then Illegal else Accept(Judge(log).box, e)
  {
    assert (log + [e])[..|log|] == log;
  }

  // ---------------------------------------------------------------- what a legal log guarantees

  /** The messages s has posted, with their destinations, oldest first. */
  function Posts(log: seq<Event>, s: int): seq<(int, Message)> {
    if log == [] then []
    else
      var e := log[|log| - 1];
      Posts(log[..|log| - 1], s) + if e.Post? && e.m.src == s then [(e.dst, e.m)] else []
  }

  /** The messages of s that receivers have copied, with those receivers. */
  function Copies(log: seq<Event>, s: int): seq<(int, Message)> {
    if log == [] then []
    else
      var e := log[|log| - 1];
      Copies(log[..|log| - 1], s) + if e.Copy? && e.m.src == s then [(e.dst, e.m)] else []
  }

  /** How often msg_send has returned to s after a delivery. */
  function Finishes(log: seq<Event>, s: int): nat {
    if log == [] then 0
    else Finishes(log[..|log| - 1], s) + if log[|log| - 1] == Finish(s) then 1 else 0
  }

  /** The messages receiver d has copied. */
  function CopiesTo(log: seq<Event>, d: int): seq<Message> {
    if log == [] then []
    else
      var e := log[|log| - 1];
      CopiesTo(log[..|log| - 1], d) + if e.Copy? && e.dst == d then [e.m] else []
  }

  /** The messages msg_recv has returned to d. */
  function Deliveries(log: seq<Event>, d: int): seq<Message> {
    if log == [] then []
    else
      var e := log[|log| - 1];
      Deliveries(log[..|log| - 1], d) + if e.Deliver? && e.dst == d then [e.m] else []
  }

  ghost predicate Paired(log: seq<Event>, s: int, out: Outgoing) {
    var posts, copies, done := Posts(log, s), Copies(log, s), Finishes(log, s);
    match out
    case Nothing => posts == copies && |copies| == done
    case Posted(d, m) => posts == copies + [(d, m)] && |copies| == done
    case Taken(d, m) => posts == copies + [(d, m)] && |copies| == done
    case Handed => posts == copies && |copies| == done + 1
  }

  /** What an event adds to the account of s. */
  lemma AccountAppend(log: seq<Event>, e: Event, s: int)
    ensures Posts(log + [e], s) == Posts(log, s) + if e.Post? && e.m.src == s then [(e.dst, e.m)] else []
    ensures Copies(log + [e], s) == Copies(log, s) + if e.Copy? && e.m.src == s then [(e.dst, e.m)] else []
    ensures Finishes(log + [e], s) == Finishes(log, s) + if e == Finish(s) then 1 else 0
  {
    assert (log + [e])[..|log|] == log;
  }

  lemma EventPairs(log: seq<Event>, e: Event, s: int, b: Box)
    requires Paired(log, s, Out(b, s)) && Accept(b, e).Legal?
    ensures Paired(log + [e], s, Out(Accept(b, e).box, s))
  {
    AccountAppend(log, e, s);
    hide Posts, Copies, Finishes, Find, RemoveAt, Mail, Hand;
  }

  lemma {:induction false} SenderAccount(log: seq<Event>, s: int)
    requires Judge(log).Legal?
    ensures Paired(log, s, Out(Judge(log).box, s))
  {
    hide Accept;
    if log == [] {
      assert Posts(log, s) == [] && Copies(log, s) == [];
    } else {
      hide Paired, Out;
      var before := log[..|log| - 1];
      SenderAccount(before, s);
      EventPairs(before, log[|log| - 1], s, Judge(before).box);
      assert log == before + [log[|log| - 1]];
    }
  }

  /**
   Every completed send is one copy of that very message by its destination: the k-th message that
   s posted is the k-th one copied from s, it went to the task it was addressed to, and at most the
   latest one is still on its way. A send returns only after the copy.
   */
  lemma SendsPairWithCopies(log: seq<Event>, s: int)
    requires Judge(log).Legal?
    ensures Copies(log, s) <= Posts(log, s)
    ensures Finishes(log, s) <= |Copies(log, s)| <= |Posts(log, s)| <= Finishes(log, s) + 1
  {
    SenderAccount(log, s);
  }

  ghost predicate Returned(log: seq<Event>, d: int, hand: Incoming) {
    match hand
    case Ready(m) => CopiesTo(log, d) == Deliveries(log, d) + [m]
    case _ => CopiesTo(log, d) == Deliveries(log, d)
  }

  lemma {:induction false} ReceiverAccount(log: seq<Event>, d: int)
    requires Judge(log).Legal?
    ensures Returned(log, d, Hand(Judge(log).box, d))
  {
    if log != [] {
      ReceiverAccount(log[..|log| - 1], d);
    }
  }

  /** msg_recv returns the copied messages, each once and in order. */
  lemma CopiesPairWithReturns(log: seq<Event>, d: int)
    requires Judge(log).Legal?
    ensures Deliveries(log, d) <= CopiesTo(log, d)
    ensures |CopiesTo(log, d)| <= |Deliveries(log, d)| + 1
  {
    ReceiverAccount(log, d);
  }

  // ---------------------------------------------------------------- single copies

  /** The positions of the copies made of s's messages, in order. */
  ghost predicate Matching(log: seq<Event>, s: int, at: seq<nat>) {
    var copies := Copies(log, s);
    && |at| == |copies|
    && (forall i, j :: 0 <= i < j < |at| ==> at[i] < at[j])
    && forall k :: 0 <= k < |at| ==>
         at[k] < |log| && log[at[k]] == Copy(copies[k].0, copies[k].1) && copies[k].1.src == s
  }

  lemma {:induction false} MatchCopies(log: seq<Event>, s: int) returns (at: seq<nat>)
    ensures Matching(log, s, at)
  {
    at := [];
    if log != [] {
      var before, e := log[..|log| - 1], log[|log| - 1];
      at := MatchCopies(before, s);
      if e.Copy? && e.m.src == s {
        at := at + [|before|];
      }
    }
  }

  /** The place of the copy at position i among all that its receiver made. */
  function Rank(log: seq<Event>, i: nat): nat
    requires i < |log| && log[i].Copy?
  {
    |CopiesTo(log[..i], log[i].dst)|
  }

  lemma {:induction false} CopiesToGrow(log: seq<Event>, i: nat, d: int)
    requires i <= |log|
    ensures CopiesTo(log[..i], d) <= CopiesTo(log, d)
    decreases |log| - i
  {
    if i == |log| {
      assert log[..i] == log;
    } else {
      CopiesToGrow(log, i + 1, d);
      assert log[..i + 1][..i] == log[..i];
    }
  }

  /** The copy at position i is the one of that rank, and no other has the same receiver and rank. */
  lemma RankIs(log: seq<Event>, i: nat)
    requires i < |log| && log[i].Copy?
    ensures var d := log[i].dst; Rank(log, i) < |CopiesTo(log, d)| && CopiesTo(log, d)[Rank(log, i)] == log[i].m
    ensures forall j :: 0 <= j < |log| && j != i && log[j].Copy? && log[j].dst == log[i].dst ==>
            Rank(log, j) != Rank(log, i)
  {
    var d := log[i].dst;
    CopiesToGrow(log, i + 1, d);
    assert log[..i + 1][..i] == log[..i];
    forall j | 0 <= j < |log| && j != i && log[j].Copy? && log[j].dst == d
      ensures Rank(log, j) != Rank(log, i)
    {
      var lo, hi := if i < j then i else j, if i < j then j else i;
      assert log[..lo + 1][..lo] == log[..lo] && log[..hi][..lo + 1] == log[..lo + 1];
      CopiesToGrow(log[..hi], lo + 1, d);
    }
  }

  /** The message posted at position i has been taken since. */
  ghost predicate TakenSince(log: seq<Event>, i: nat)
    requires i < |log| && log[i].Post?
  {
    exists k :: i < k < |log| && log[k].Take? && log[k].dst == log[i].dst && log[k].src == log[i].m.src
  }

  ghost predicate PostTo(log: seq<Event>, i: int, d: int) {
    0 <= i < |log| && log[i].Post? && log[i].dst == d
  }

  /** The mailbox of d lists, oldest first, the posts at `pos`; every other post to d has been taken. */
  ghost predicate Located(log: seq<Event>, d: int, q: seq<Message>, pos: seq<nat>) {
    && |pos| == |q|
    && (forall i, j :: 0 <= i < j < |pos| ==> pos[i] < pos[j])
    && (forall i :: 0 <= i < |pos| ==> pos[i] < |log| && log[pos[i]] == Post(d, q[i]) && !TakenSince(log, pos[i]))
    && (forall i: nat {:trigger PostTo(log, i, d)} :: PostTo(log, i, d) && i !in pos ==> TakenSince(log, i))
  }

  /** Only posted messages are in a mailbox, and only one from each sender. */
  ghost predicate OneLetterEach(b: Box, d: int) {
    var q := Mail(b, d);
    && (forall i :: 0 <= i < |q| ==> Out(b, q[i].src) == Posted(d, q[i]))
    && (forall i, j :: 0 <= i < j < |q| ==> q[i].src != q[j].src)
  }

  ghost predicate Consistent(b: Box) {
    forall d :: OneLetterEach(b, d)
  }

  lemma RemoveAtIndex(q: seq<Message>, k: nat)
    requires k < |q|
    ensures |RemoveAt(q, k)| == |q| - 1
    ensures forall i :: 0 <= i < |q| - 1 ==> RemoveAt(q, k)[i] == q[if i < k then i else i + 1]
  {
  }

  /** What an event does to one mailbox. */
  lemma AcceptMail(b: Box, e: Event, d: int)
    requires Accept(b, e).Legal?
    ensures var q, q' := Mail(b, d), Mail(Accept(b, e).box, d);
            if e.Post? && e.dst == d then q' == q + [e.m]
            else if e.Take? && e.dst == d then
              var k := if e.want == RECV_FROM_ANY then 0 else Find(q, e.want);
              k < |q| && q[k].src == e.src && q' == RemoveAt(q, k)
            else q' == q
  {
  }

  /** What an event does to the state of one sender. */
  lemma AcceptOut(b: Box, e: Event, p: int)
    requires Accept(b, e).Legal?
    ensures var o, o' := Out(b, p), Out(Accept(b, e).box, p);
            if e.Post? && e.m.src == p then o.Nothing? && o' == Posted(e.dst, e.m)
            else if e.Take? && e.src == p then o.Posted? && o.dst == e.dst
            else o.Posted? ==> o' == o
  {
  }

  lemma AcceptKeepsConsistent(b: Box, e: Event)
    requires Consistent(b) && Accept(b, e).Legal?
    ensures Consistent(Accept(b, e).box)
  {
    hide Accept, OneLetterEach;
    var b' := Accept(b, e).box;
    forall d
      ensures OneLetterEach(b', d)
    {
      AcceptKeepsLetters(b, e, d);
    }
  }

  lemma AcceptKeepsLetters(b: Box, e: Event, d: int)
    requires OneLetterEach(b, d) && Accept(b, e).Legal?
    ensures OneLetterEach(Accept(b, e).box, d)
  {
    hide Accept, Mail, Out, Find, RemoveAt;
    var b' := Accept(b, e).box;
    AcceptMail(b, e, d);
    forall i | 0 <= i < |Mail(b', d)| {
      AcceptOut(b, e, Mail(b', d)[i].src);
    }
    if e.Take? && e.dst == d {
      RemoveAtIndex(Mail(b, d), if e.want == RECV_FROM_ANY then 0 else Find(Mail(b, d), e.want));
    }
  }

  lemma {:induction false} LegalIsConsistent(log: seq<Event>)
    requires Judge(log).Legal?
    ensures Consistent(Judge(log).box)
  {
    if log != [] {
      LegalIsConsistent(log[..|log| - 1]);
      AcceptKeepsConsistent(Judge(log[..|log| - 1]).box, log[|log| - 1]);
    }
  }

  lemma TakenStays(log: seq<Event>, i: nat)
    requires i < |log| - 1 && log[i].Post?
    ensures TakenSince(log, i) <==>
      TakenSince(log[..|log| - 1], i)
      || (var e := log[|log| - 1]; e.Take? && e.dst == log[i].dst && e.src == log[i].m.src)
  {
    var before := log[..|log| - 1];
    if TakenSince(before, i) {
      var k :| i < k < |before| && before[k].Take? && before[k].dst == before[i].dst &&
          before[k].src == before[i].m.src;
      assert log[k] == before[k];
    }
    if TakenSince(log, i) && !TakenSince(before, i) {
      var k :| i < k < |log| && log[k].Take? && log[k].dst == log[i].dst && log[k].src == log[i].m.src;
      if k < |before| {
        assert false;
      }
    }
  }

  lemma LocatePost(log: seq<Event>, d: int, q: seq<Message>, pos: seq<nat>, m: Message)
    requires Located(log, d, q, pos)
    ensures Located(log + [Post(d, m)], d, q + [m], pos + [|log|])
  {
    var log' := log + [Post(d, m)];
    assert log'[..|log|] == log;
    forall i: nat | i < |log| && log[i].Post?
      ensures TakenSince(log', i) <==> TakenSince(log, i)
    {
      TakenStays(log', i);
    }
    forall i: nat | PostTo(log', i, d) && i !in pos + [|log|]
      ensures TakenSince(log', i)
    {
      assert PostTo(log, i, d);
    }
  }

  lemma LocateTake(log: seq<Event>, d: int, q: seq<Message>, pos: seq<nat>, e: Event, k: nat)
    requires Located(log, d, q, pos) && k < |q| && e.Take? && e.dst == d && e.src == q[k].src
    requires forall i, j :: 0 <= i < j < |q| ==> q[i].src != q[j].src
    ensures Located(log + [e], d, RemoveAt(q, k), pos[..k] + pos[k + 1..])
  {
    var log', pos' := log + [e], pos[..k] + pos[k + 1..];
    assert log'[..|log|] == log;
    RemoveAtIndex(q, k);
    forall i: nat | i < |log| && log[i].Post?
      ensures TakenSince(log', i) <==> TakenSince(log, i) || (log[i].dst == d && log[i].m.src == q[k].src)
    {
      TakenStays(log', i);
    }
    forall i | 0 <= i < |pos'|
      ensures pos'[i] == pos[if i < k then i else i + 1]
    {
    }
    forall i: nat | PostTo(log', i, d) && i !in pos'
      ensures TakenSince(log', i)
    {
      assert PostTo(log, i, d);
      if i in pos {
        assert i == pos[k];
      }
    }
  }

  lemma LocateOther(log: seq<Event>, d: int, q: seq<Message>, pos: seq<nat>, e: Event)
    requires Located(log, d, q, pos) && !((e.Post? || e.Take?) && e.dst == d)
    ensures Located(log + [e], d, q, pos)
  {
    var log' := log + [e];
    assert log'[..|log|] == log;
    forall i: nat | PostTo(log', i, d)
      ensures PostTo(log, i, d) && (TakenSince(log', i) <==> TakenSince(log, i))
    {
      TakenStays(log', i);
    }
    forall i | 0 <= i < |pos|
      ensures !TakenSince(log', pos[i])
    {
      assert PostTo(log', pos[i], d);
    }
  }

  lemma {:induction false} Locate(log: seq<Event>, d: int) returns (pos: seq<nat>)
    requires Judge(log).Legal?
    ensures Located(log, d, Mail(Judge(log).box, d), pos)
  {
    if log == [] {
      return [];
    }
    var before, e := log[..|log| - 1], log[|log| - 1];
    assert log == before + [e];
    AcceptMail(Judge(before).box, e, d);
    hide Accept;
    var q := Mail(Judge(before).box, d);
    pos := Locate(before, d);
    if e.Post? && e.dst == d {
      LocatePost(before, d, q, pos, e.m);
      pos := pos + [|before|];
    } else if e.Take? && e.dst == d {
      LegalIsConsistent(before);
      assert OneLetterEach(Judge(before).box, d);
      var k := if e.want == RECV_FROM_ANY then 0 else Find(q, e.want);
      LocateTake(before, d, q, pos, e, k);
      pos := pos[..k] + pos[k + 1..];
    } else {
      LocateOther(before, d, q, pos, e);
    }
  }

  /**
   A receiver that accepts any sender is served first come, first served: the message it takes is
   the oldest one posted to it that has not been taken, and every older one has.
   */
  lemma FirstComeFirstServed(log: seq<Event>, d: int, s: int)
    requires Judge(log + [Take(d, RECV_FROM_ANY, s)]).Legal?
    ensures exists i: nat ::
      && PostTo(log, i, d) && log[i].m.src == s && !TakenSince(log, i)
      && forall j: nat {:trigger PostTo(log, j, d)} :: PostTo(log, j, d) && j < i ==> TakenSince(log, j)
  {
    JudgeAppend(log, Take(d, RECV_FROM_ANY, s));
    var pos := Locate(log, d);
    assert PostTo(log, pos[0], d);
  }
}
