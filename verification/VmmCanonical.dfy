/**
 The coalesced form is canonical: it is determined by the addresses it covers. So an addition and a
 removal of the same range undo each other, entry for entry.
 */
module VmmCanonical {
  import opened Words
  import opened Vmm
  import opened VmmRanges

  lemma TailCovers(s: seq<Block>, a: int)
    requires WellFormed(s) && s != []
    ensures Covers(s[1..], a) <==> Covers(s, a) && a > s[0].End()
  {
    if Covers(s[1..], a) {
      var j :| 0 <= j < |s[1..]| && In(s[1..][j], a);
      assert In(s[j + 1], a);
    }
    if Covers(s, a) && a > s[0].End() {
      var j :| 0 <= j < |s| && In(s[j], a);
      assert In(s[1..][j - 1], a);
    }
  }

  /** Nothing is covered below the first block, nor at the address just past it. */
  lemma HeadIsLeast(s: seq<Block>, a: int)
    requires WellFormed(s) && s != [] && Covers(s, a)
    ensures s[0].start <= a && a != s[0].End()
  {
    var j :| 0 <= j < |s| && In(s[j], a);
  }

  lemma HeadReaches(u: seq<Block>, v: seq<Block>)
    requires WellFormed(u) && WellFormed(v) && u != [] && v != []
    requires forall a :: Covers(u, a) <==> Covers(v, a)
    ensures v[0].start <= u[0].start && v[0].End() >= u[0].End()
  {
    assert In(u[0], u[0].start) && Covers(u, u[0].start);
    HeadIsLeast(v, u[0].start);
    if v[0].End() < u[0].End() {
      assert In(v[0], v[0].start) && Covers(v, v[0].start);
      HeadIsLeast(u, v[0].start);
      assert In(u[0], v[0].End()) && Covers(u, v[0].End());
      HeadIsLeast(v, v[0].End());
    }
  }

  lemma SomethingCovered(s: seq<Block>)
    requires WellFormed(s) && s != []
    ensures Covers(s, s[0].start) && WellFormed(s[1..])
  {
    assert In(s[0], s[0].start);
  }

  lemma TailsCoverSame(s: seq<Block>, t: seq<Block>)
    requires WellFormed(s) && WellFormed(t) && s != [] && t != [] && s[0] == t[0]
    requires forall a :: Covers(s, a) <==> Covers(t, a)
    ensures forall a :: Covers(s[1..], a) <==> Covers(t[1..], a)
  {
    forall a
      ensures Covers(s[1..], a) <==> Covers(t[1..], a)
    {
      TailCovers(s, a);
      TailCovers(t, a);
      hide Covers, WellFormed;
    }
  }

  lemma {:induction false} Canonical(s: seq<Block>, t: seq<Block>)
    requires WellFormed(s) && WellFormed(t)
    requires forall a :: Covers(s, a) <==> Covers(t, a)
    ensures s == t
  {
    hide WellFormed;
    if s == [] || t == [] {
      if s != [] { SomethingCovered(s); }
      if t != [] { SomethingCovered(t); }
    } else {
      hide Covers;
      HeadReaches(s, t);
      HeadReaches(t, s);
      SomethingCovered(s);
      SomethingCovered(t);
      TailsCoverSame(s, t);
      Canonical(s[1..], t[1..]);
      assert s == [s[0]] + s[1..] && t == [t[0]] + t[1..];
    }
  }

  ghost predicate CoversAll(s: seq<Block>, start: int, size: int) {
    forall a :: start <= a < start + size ==> Covers(s, a)
  }

  ghost predicate CoversNone(s: seq<Block>, start: int, size: int) {
    forall a :: start <= a < start + size ==> !Covers(s, a)
  }

  /** A range that is covered throughout lies in one block. */
  lemma CoveredIsContained(s: seq<Block>, start: Word, size: Word)
    requires WellFormed(s) && 0 < size && CoversAll(s, start, size)
    ensures Contained(s, start, size)
  {
    assert Covers(s, start);
    var i :| 0 <= i < |s| && In(s[i], start);
    assert s[i].End() < start + size ==> Covers(s, s[i].End());
    assert Holds(s[i], start, size);
  }

  lemma ContainedIsCovered(s: seq<Block>, start: Word, size: Word)
    requires Contained(s, start, size)
    ensures CoversAll(s, start, size)
  {
    var i :| 0 <= i < |s| && Holds(s[i], start, size);
    forall a | start <= a < start + size
      ensures Covers(s, a)
    {
      assert In(s[i], a);
    }
  }

  lemma DisjointIsUncovered(s: seq<Block>, start: Word, size: Word)
    requires WellFormed(s) && 0 < size
    ensures Disjoint(s, start, size) <==> CoversNone(s, start, size)
  {
    if CoversNone(s, start, size) {
      forall i | 0 <= i < |s|
        ensures s[i].End() <= start || start + size <= s[i].start
      {
        var a := if s[i].start < start then start else s[i].start;
        if s[i].start <= a < s[i].End() && a < start + size {
          assert In(s[i], a) && Covers(s, a);
        }
      }
    }
  }

  /** Whenever an addition succeeds, the removal of the same range succeeds and restores the table. */
  lemma AddThenRemove(s: seq<Block>, total: nat, start: Word, size: Word)
    requires WellFormed(s) && |s| <= total && Proper(start, size) && Disjoint(s, start, size)
    requires Added(s, total, start, size).status == Success
    ensures Removed(Added(s, total, start, size).blocks, total, start, size) == Outcome(Success, s)
  {
    hide Added, Removed;
    var t := Added(s, total, start, size).blocks;
    AddIsUnion(s, total, start, size);
    DisjointIsUncovered(s, start, size);
    CoveredIsContained(t, start, size);
    var more := total + 1;
    RemoveIsDifference(t, total, start, size);
    RemoveIsDifference(t, more, start, size);
    hide Covers, WellFormed, Disjoint, Contained, Interior, Touches;
    Canonical(s, Removed(t, more, start, size).blocks);
    if Removed(t, total, start, size).status == Success {
      Canonical(s, Removed(t, total, start, size).blocks);
    }
  }

  /** Whenever a removal succeeds, the addition of the same range succeeds and restores the table. */
  lemma RemoveThenAdd(s: seq<Block>, total: nat, start: Word, size: Word)
    requires WellFormed(s) && |s| <= total && Proper(start, size)
    requires Removed(s, total, start, size).status == Success
    ensures Added(Removed(s, total, start, size).blocks, total, start, size) == Outcome(Success, s)
  {
    hide Added, Removed;
    var t := Removed(s, total, start, size).blocks;
    var more := total + 1;
    RemoveIsDifference(s, total, start, size);
    ContainedIsCovered(s, start, size);
    DisjointIsUncovered(t, start, size);
    AddIsUnion(t, total, start, size);
    AddIsUnion(t, more, start, size);
    if !Touches(t, start, size) { AddGrows(t, start, size); }
    hide Covers, WellFormed, Disjoint, Contained, Interior, Touches;
    Canonical(s, Added(t, more, start, size).blocks);
    if Added(t, total, start, size).status == Success {
      Canonical(s, Added(t, total, start, size).blocks);
    }
  }

  /** An addition that touches nothing takes one more entry. */
  lemma AddGrows(s: seq<Block>, start: Word, size: Word)
    requires WellFormed(s) && Proper(start, size) && Disjoint(s, start, size) && !Touches(s, start, size)
    ensures |Added(s, |s| + 1, start, size).blocks| == |s| + 1
  {
    hide Place, Added;
    TouchesAtPlace(s, start, size);
    AddedExactly(s, |s| + 1, start, size);
    InsertedAt(s, Place(s, start), Block(start, size));
    hide Inserted, Disjoint, Touches, WellFormed;
  }

  /**
   vmm_alloc takes its range from the lowest block that is large enough. The removal it does not
   check never fails, so the range was covered before and is not covered afterwards.
   */
  lemma AllocTakesFirstFit(s: seq<Block>, total: nat, size: Word)
    requires WellFormed(s) && |s| <= total && 0 < size
    ensures var i := FirstFit(s, size);
            && (i == |s| <==> forall j :: 0 <= j < |s| ==> s[j].size < size)
            && (i < |s| ==>
                  var start := s[i].start;
                  var r := Removed(s, total, start, size);
                  && Proper(start, size) && CoversAll(s, start, size)
                  && (forall a: Word :: a < start && a + size < TWO_64 ==> !CoversAll(s, a, size))
                  && r.status == Success && GoodDifference(s, start, size, r.blocks))
  {
    hide Removed;
    var i := FirstFit(s, size);
    if i < |s| {
      var start := s[i].start;
      assert Holds(s[i], start, size) && Contained(s, start, size);
      ContainedIsCovered(s, start, size);
      RemoveIsDifference(s, total, start, size);
      FoundHolds(s, start, size);
      forall a: Word | a < start && a + size < TWO_64
        ensures !CoversAll(s, a, size)
      {
        if CoversAll(s, a, size) {
          CoveredIsContained(s, a, size);
        }
      }
    }
  }

  // ---------------------------------------------------------------- any argument

  /** A removal does what it is for: difference on success, no change otherwise. */
  ghost predicate RemovesRight(s: seq<Block>, total: nat, start: Word, size: Word) {
    var r := Removed(s, total, start, size);
    && (r.status == NotFound <==> !Contained(s, start, size))
    && (r.status == Success ==> GoodDifference(s, start, size, r.blocks))
    && (r.status != Success ==> r.blocks == s)
  }

  /** start + size wraps around, and the wrapped end passes the test for some block. */
  ghost predicate WrapsIntoBlock(s: seq<Block>, start: Word, size: Word) {
    start + size >= TWO_64 && exists i :: 0 <= i < |s| && Matches(s[i], start, size)
  }

  /** An empty range strictly inside a block, with room to split the block in two. */
  ghost predicate SplitsOnNothing(s: seq<Block>, total: nat, start: Word, size: Word) {
    size == 0 && |s| < total && Interior(s, start, size)
  }

  /** A block cut in two at an inner address leaves two blocks that touch. */
  lemma CutsTouch(s: seq<Block>, i: nat, start: Word)
    requires i < |s| && s[i].start < start < s[i].End()
    ensures !WellFormed(Inserted(s[i := Block(s[i].start, start - s[i].start)], i + 1,
                                Block(start, s[i].End() - start)))
  {
    var t := s[i := Block(s[i].start, start - s[i].start)];
    InsertedAt(t, i + 1, Block(start, s[i].End() - start));
    var r := Inserted(t, i + 1, Block(start, s[i].End() - start));
    hide Inserted;
    assert r[i] == t[i] && !(r[i].End() < r[i + 1].start);
  }

  lemma AlreadyThere(s: seq<Block>, i: nat, b: Block)
    requires i < |s| && s[i] == b
    ensures s[i := b] == s
  {
  }

  /** Unless the empty range lies strictly inside a block, the table stays as it is. */
  lemma EmptyRemovalStays(s: seq<Block>, total: nat, start: Word)
    requires WellFormed(s)
    requires var i := FirstMatch(s, start, 0); !(i < |s| && s[i].start < start < s[i].End())
    ensures var r := Removed(s, total, start, 0);
            r.blocks == s && r.status == if FirstMatch(s, start, 0) < |s| then Success else NotFound
  {
    hide Removed, FirstMatch, Cut, Inserted;
    var i := FirstMatch(s, start, 0);
    RemovedExactly(s, total, start, 0);
    if i < |s| {
      assert s[i].size > 0;
      if start == s[i].start {
        AlreadyThere(s, i, Block(start, s[i].End() - start));
      } else {
        AlreadyThere(s, i, Block(s[i].start, start - s[i].start));
      }
    }
  }

  lemma EmptyDifference(s: seq<Block>, start: Word)
    requires WellFormed(s)
    ensures GoodDifference(s, start, 0, s)
  {
    hide WellFormed, Covers;
  }

  /** Strictly inside a block, it splits the block in two that touch, if there is room. */
  lemma EmptyRemovalSplits(s: seq<Block>, total: nat, start: Word)
    requires WellFormed(s) && |s| <= total
    requires var i := FirstMatch(s, start, 0); i < |s| && s[i].start < start < s[i].End()
    ensures var r := Removed(s, total, start, 0);
            if |s| < total then r.status == Success && !WellFormed(r.blocks) else r == Outcome(OutOfResource, s)
  {
    hide Removed, FirstMatch, WellFormed, Inserted, Cut, Holds;
    RemovedExactly(s, total, start, 0);
    CutsTouch(s, FirstMatch(s, start, 0), start);
  }

  lemma EmptyRemoval(s: seq<Block>, total: nat, start: Word)
    requires WellFormed(s) && |s| <= total
    ensures RemovesRight(s, total, start, 0) <==> !SplitsOnNothing(s, total, start, 0)
  {
    hide Removed, FirstMatch, Contained, Interior, Holds, WellFormed, IsDifference;
    var i := FirstMatch(s, start, 0);
    FoundHolds(s, start, 0);
    if i < |s| && s[i].start < start < s[i].End() {
      EmptyRemovalSplits(s, total, start);
    } else {
      EmptyRemovalStays(s, total, start);
      EmptyDifference(s, start);
    }
  }

  /** On every argument, a removal does what it is for unless one of the two conditions holds. */
  lemma RemovesRightUnless(s: seq<Block>, total: nat, start: Word, size: Word)
    requires WellFormed(s) && |s| <= total
    ensures RemovesRight(s, total, start, size)
       <==> !WrapsIntoBlock(s, start, size) && !SplitsOnNothing(s, total, start, size)
  {
    if size == 0 {
      EmptyRemoval(s, total, start);
    } else if start + size < TWO_64 {
      RemoveIsDifference(s, total, start, size);
    } else {
      var i := FirstMatch(s, start, size);
      hide FirstMatch, Matches, Wrap;
      if i < |s| { assert WrapsIntoBlock(s, start, size); }
    }
  }

  /**
   The removal of the topmost page, which a task can ask for: it reports success and leaves two blocks that overlap.
   */
  lemma WrappedRemovalExample()
    ensures var s, v := [Block(0x80_0000, 0x20_0000)], TWO_64 - 0x20_0000;
            && WellFormed(s) && WrapsIntoBlock(s, v, 0x20_0000)
            && Removed(s, 1024, v, 0x20_0000) ==
                Outcome(Success, [Block(0x80_0000, v - 0x80_0000), Block(0, 0xA0_0000)])
  {
    var s, v := [Block(0x80_0000, 0x20_0000)], TWO_64 - 0x20_0000;
    assert Matches(s[0], v, 0x20_0000);
    assert FirstMatch(s, v, 0x20_0000) == 0;
  }

  /** Removing nothing, as no caller does, from the middle of a block leaves two blocks that touch. */
  lemma EmptyRemovalExample()
    ensures var s := [Block(0x1000, 0x2000)];
            WellFormed(s) && Removed(s, 4, 0x2000, 0) ==
                Outcome(Success, [Block(0x1000, 0x1000), Block(0x2000, 0x1000)])
  {
    var s := [Block(0x1000, 0x2000)];
    assert Matches(s[0], 0x2000, 0);
    assert FirstMatch(s, 0x2000, 0) == 0;
  }
}
