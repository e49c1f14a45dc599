/** What the range tables mean: sorted, coalesced block sequences are sets of addresses. */
module VmmRanges {
  import opened Words
  import opened Vmm

  ghost predicate In(b: Block, a: int) {
    b.start <= a < b.End()
  }

  ghost predicate Covers(s: seq<Block>, a: int) {
    exists i :: 0 <= i < |s| && In(s[i], a)
  }

  /** No block is empty or reaches the top of the address space; between two blocks there is a gap. */
  ghost predicate WellFormed(s: seq<Block>) {
    && (forall i :: 0 <= i < |s| ==> 0 < s[i].size && s[i].End() < TWO_64)
    && (forall i, j :: 0 <= i < j < |s| ==> s[i].End() < s[j].start)
  }

  ghost predicate Disjoint(s: seq<Block>, start: Word, size: Word) {
    forall i :: 0 <= i < |s| ==> s[i].End() <= start || start + size <= s[i].start
  }

  ghost predicate Holds(b: Block, start: Word, size: Word) {
    b.start <= start && start + size <= b.End()
  }

  /** Some block contains the whole range. */
  ghost predicate Contained(s: seq<Block>, start: Word, size: Word) {
    exists i :: 0 <= i < |s| && Holds(s[i], start, size)
  }

  ghost predicate Touches(s: seq<Block>, start: Word, size: Word) {
    exists i :: 0 <= i < |s| && (s[i].End() == start || s[i].start == start + size)
  }

  ghost predicate IsUnion(s: seq<Block>, start: Word, size: Word, r: seq<Block>) {
    forall a :: Covers(r, a) <==> Covers(s, a) || start <= a < start + size
  }

  ghost predicate IsDifference(s: seq<Block>, start: Word, size: Word, r: seq<Block>) {
    forall a :: Covers(r, a) <==> Covers(s, a) && !(start <= a < start + size)
  }

  /** The range is one a caller may pass: not empty, and below the top of the address space. */
  predicate Proper(start: Word, size: Word) {
    0 < size && start + size < TWO_64
  }

  // ---------------------------------------------------------------- adding

  /** In a disjoint table, the blocks before the place end before the range, the others start after it. */
  lemma PlaceIsBetween(s: seq<Block>, start: Word, size: Word)
    requires WellFormed(s) && Proper(start, size) && Disjoint(s, start, size)
    ensures var i := Place(s, start);
            && (forall j :: 0 <= j < i ==> s[j].End() <= start && (j < i - 1 ==> s[j].End() < start))
            && (forall j :: i <= j < |s| ==> start + size <= s[j].start && (i < j ==> start + size < s[j].start))
  {
    hide Place, Wrap;
    var i := Place(s, start);
    forall j | 0 <= j < i
      ensures s[j].End() <= start && (j < i - 1 ==> s[j].End() < start)
    {
      assert s[j].start <= start;
      if j < i - 1 { assert s[i - 1].start <= start; }
    }
    forall j | i <= j < |s|
      ensures start + size <= s[j].start && (i < j ==> start + size < s[j].start)
    {
      assert s[i].start <= s[j].start;
    }
  }

  predicate Left(s: seq<Block>, i: nat, start: Word)
    requires i <= |s|
  {
    i > 0 && s[i - 1].End() == start
  }

  predicate Right(s: seq<Block>, i: nat, start: Word, size: Word)
    requires i <= |s|
  {
    i < |s| && s[i].start == start + size
  }

  /** The sums that an addition forms all fit in a word. */
  lemma SumsAreExact(s: seq<Block>, i: nat, start: Word, size: Word)
    requires WellFormed(s) && Proper(start, size) && i <= |s|
    ensures JoinsLeft(s, i, start) <==> Left(s, i, start)
    ensures JoinsRight(s, i, start, size) <==> Right(s, i, start, size)
    ensures Left(s, i, start) ==> Wrap(s[i - 1].size + size) == s[i - 1].size + size
    ensures Left(s, i, start) && Right(s, i, start, size) ==>
              Wrap(s[i - 1].size + size + s[i].size) == s[i - 1].size + size + s[i].size
    ensures Right(s, i, start, size) ==> Wrap(s[i].size + size) == s[i].size + size
  {
    hide Wrap;
    WrapSmall(start + size);
    if i > 0 { WrapSmall(s[i - 1].End()); }
    if Left(s, i, start) {
      WrapSmall(s[i - 1].size + size);
      if Right(s, i, start, size) { WrapSmall(s[i - 1].size + size + s[i].size); }
    }
    if Right(s, i, start, size) { WrapSmall(s[i].size + size); }
  }

  lemma SumsFit(s: seq<Block>, i: nat, start: Word, size: Word)
    requires WellFormed(s) && Proper(start, size) && i <= |s|
    ensures Left(s, i, start) ==> s[i - 1].size + size < TWO_64
    ensures Right(s, i, start, size) ==> size + s[i].size < TWO_64
  {
  }

  lemma UpdateTwice(s: seq<Block>, i: nat, b: Block, c: Block)
    requires i < |s|
    ensures s[i := b][i := c] == s[i := c]
  {
  }

  lemma JoinedFits(s: seq<Block>, i: nat, start: Word, size: Word)
    requires WellFormed(s) && Proper(start, size) && i <= |s| && Left(s, i, start) && Right(s, i, start, size)
    ensures s[i - 1].size + size + s[i].size < TWO_64
  {
  }

  lemma AddedJoins(s: seq<Block>, total: nat, start: Word, size: Word)
    requires WellFormed(s) && Proper(start, size)
    requires Left(s, Place(s, start), start) && Right(s, Place(s, start), start, size)
    ensures var i := Place(s, start);
            && s[i - 1].size + size + s[i].size < TWO_64
            && Added(s, total, start, size)
               == Outcome(Success, Cut(s[i - 1 := Block(s[i - 1].start, s[i - 1].size + size + s[i].size)], i))
  {
    hide Place, Wrap, Cut, Inserted, JoinsLeft, JoinsRight, WellFormed;
    var i := Place(s, start);
    SumsAreExact(s, i, start, size);
    SumsFit(s, i, start, size);
    JoinedFits(s, i, start, size);
    UpdateTwice(s, i - 1, Block(s[i - 1].start, s[i - 1].size + size),
        Block(s[i - 1].start, s[i - 1].size + size + s[i].size));
  }

  /** Under exact arithmetic an addition is one of these four edits, or refused. */
  lemma AddedExactly(s: seq<Block>, total: nat, start: Word, size: Word)
    requires WellFormed(s) && Proper(start, size)
    ensures var i, r := Place(s, start), Added(s, total, start, size);
            if Left(s, i, start) && Right(s, i, start, size) then
              && s[i - 1].size + size + s[i].size < TWO_64
              && r == Outcome(Success, Cut(s[i - 1 := Block(s[i - 1].start, s[i - 1].size + size + s[i].size)], i))
            else if Left(s, i, start) then
              r == Outcome(Success, s[i - 1 := Block(s[i - 1].start, s[i - 1].size + size)])
            else if Right(s, i, start, size) then r == Outcome(Success, s[i := Block(start, size + s[i].size)])
            else if |s| < total then r == Outcome(Success, Inserted(s, i, Block(start, size)))
            else r == Outcome(Error, s)
  {
    hide Place, Wrap, Cut, Inserted, JoinsLeft, JoinsRight, WellFormed;
    var i := Place(s, start);
    if Left(s, i, start) && Right(s, i, start, size) {
      AddedJoins(s, total, start, size);
      hide Added;
    } else {
      SumsAreExact(s, i, start, size);
    }
  }

  lemma TouchesAtPlace(s: seq<Block>, start: Word, size: Word)
    requires WellFormed(s) && Proper(start, size) && Disjoint(s, start, size)
    ensures Touches(s, start, size) <==>
              Left(s, Place(s, start), start) || Right(s, Place(s, start), start, size)
  {
    hide Place;
    var i := Place(s, start);
    PlaceIsBetween(s, start, size);
    hide WellFormed, Disjoint;
    if Touches(s, start, size) {
      var j :| 0 <= j < |s| && (s[j].End() == start || s[j].start == start + size);
      assert s[j].End() == start ==> j == i - 1;
      assert s[j].start == start + size ==> j == i;
    }
  }

  lemma InsertedAt(s: seq<Block>, i: nat, b: Block)
    requires i <= |s|
    ensures |Inserted(s, i, b)| == |s| + 1
    ensures forall j :: 0 <= j < i ==> Inserted(s, i, b)[j] == s[j]
    ensures Inserted(s, i, b)[i] == b
    ensures forall j {:trigger s[j]} :: i <= j < |s| ==> Inserted(s, i, b)[j + 1] == s[j]
    ensures forall j {:trigger Inserted(s, i, b)[j]} :: i < j <= |s| ==> Inserted(s, i, b)[j] == s[j - 1]
  {
  }

  lemma CutAt(s: seq<Block>, i: nat)
    requires i < |s|
    ensures |Cut(s, i)| == |s| - 1
    ensures forall j :: 0 <= j < i ==> Cut(s, i)[j] == s[j]
    ensures forall j {:trigger s[j]} :: i < j < |s| ==> Cut(s, i)[j - 1] == s[j]
    ensures forall j {:trigger Cut(s, i)[j]} :: i <= j < |s| - 1 ==> Cut(s, i)[j] == s[j + 1]
  {
  }

  /** A block fits between its neighbours. */
  ghost predicate FitsBetween(s: seq<Block>, i: int, j: int, b: Block) {
    && 0 < b.size && b.End() < TWO_64
    && (0 <= i < |s| ==> s[i].End() < b.start)
    && (0 <= j < |s| ==> b.End() < s[j].start)
  }

  lemma UpdateKeeps(s: seq<Block>, i: nat, b: Block)
    requires WellFormed(s) && i < |s| && FitsBetween(s, i - 1, i + 1, b)
    ensures WellFormed(s[i := b])
  {
    var r := s[i := b];
    forall j, k | 0 <= j < k < |r|
      ensures r[j].End() < r[k].start
    {
      if k == i && j + 1 < i { assert s[j].End() < s[i - 1].start; }
      if j == i && i + 1 < k { assert s[i + 1].End() < s[k].start; }
    }
  }

  /** The block at position m after an insertion at i. */
  function AtInserted(s: seq<Block>, i: nat, b: Block, m: nat): Block
    requires i <= |s| && m <= |s|
  {
    if m < i then s[m] else if m == i then b else s[m - 1]
  }

  lemma InsertOrder(s: seq<Block>, i: nat, b: Block, j: nat, k: nat)
    requires WellFormed(s) && i <= |s| && FitsBetween(s, i - 1, i, b) && j < k <= |s|
    ensures AtInserted(s, i, b, j).End() < AtInserted(s, i, b, k).start
  {
    if k == i && j + 1 < i { assert s[j].End() < s[i - 1].start; }
    if j == i && i + 1 < k { assert s[i].End() < s[k - 1].start; }
  }

  lemma InsertKeeps(s: seq<Block>, i: nat, b: Block)
    requires WellFormed(s) && i <= |s| && FitsBetween(s, i - 1, i, b)
    ensures WellFormed(Inserted(s, i, b))
  {
    var r := Inserted(s, i, b);
    InsertedAt(s, i, b);
    hide Inserted;
    forall m | 0 <= m < |r|
      ensures r[m] == AtInserted(s, i, b, m)
    {
    }
    forall j, k | 0 <= j < k < |r|
      ensures r[j].End() < r[k].start
    {
      InsertOrder(s, i, b, j, k);
    }
  }

  lemma CutKeeps(s: seq<Block>, i: nat)
    requires WellFormed(s) && i < |s|
    ensures WellFormed(Cut(s, i))
  {
    CutAt(s, i);
    hide Cut;
  }

  lemma CutUpdated(s: seq<Block>, i: nat, b: Block)
    requires 0 < i < |s|
    ensures |Cut(s, i)| == |s| - 1 && Cut(s[i - 1 := b], i) == Cut(s, i)[i - 1 := b]
  {
  }

  lemma JoinKeeps(s: seq<Block>, i: nat, b: Block)
    requires WellFormed(s) && 0 < i < |s| && FitsBetween(s, i - 2, i + 1, b)
    ensures WellFormed(Cut(s[i - 1 := b], i)) && |Cut(s[i - 1 := b], i)| == |s| - 1
  {
    hide WellFormed;
    CutKeeps(s, i);
    CutAt(s, i);
    CutUpdated(s, i, b);
    hide Cut;
    UpdateKeeps(Cut(s, i), i - 1, b);
  }

  /** Replacing block i by one that also spans the range. */
  lemma GrowOne(s: seq<Block>, i: nat, b: Block, start: Word, size: Word)
    requires i < |s|
    requires forall a :: In(b, a) <==> In(s[i], a) || start <= a < start + size
    ensures IsUnion(s, start, size, s[i := b])
  {
    var r := s[i := b];
    forall a
      ensures Covers(r, a) <==> Covers(s, a) || start <= a < start + size
    {
      if Covers(r, a) {
        var j :| 0 <= j < |r| && In(r[j], a);
        assert j != i ==> In(s[j], a);
      }
      if Covers(s, a) {
        var j :| 0 <= j < |s| && In(s[j], a);
        assert In(r[j], a);
      }
      if start <= a < start + size { assert In(r[i], a); }
    }
  }

  lemma InsertOne(s: seq<Block>, i: nat, start: Word, size: Word)
    requires i <= |s|
    ensures IsUnion(s, start, size, Inserted(s, i, Block(start, size)))
  {
    var r := Inserted(s, i, Block(start, size));
    InsertedAt(s, i, Block(start, size));
    forall a
      ensures Covers(r, a) <==> Covers(s, a) || start <= a < start + size
    {
      if Covers(r, a) {
        var j :| 0 <= j < |r| && In(r[j], a);
        if j != i { assert In(s[if j < i then j else j - 1], a); }
      }
      if Covers(s, a) {
        var j :| 0 <= j < |s| && In(s[j], a);
        assert In(r[if j < i then j else j + 1], a);
      }
      if start <= a < start + size { assert In(r[i], a); }
    }
  }

  /** Closing the gap between blocks i - 1 and i with the range. */
  lemma JoinTwo(s: seq<Block>, i: nat, b: Block, start: Word, size: Word)
    requires 0 < i < |s|
    requires forall a :: In(b, a) <==> In(s[i - 1], a) || start <= a < start + size || In(s[i], a)
    ensures IsUnion(s, start, size, Cut(s[i - 1 := b], i))
  {
    var r := Cut(s[i - 1 := b], i);
    CutAt(s[i - 1 := b], i);
    forall a
      ensures Covers(r, a) <==> Covers(s, a) || start <= a < start + size
    {
      if Covers(r, a) {
        var j :| 0 <= j < |r| && In(r[j], a);
        if j != i - 1 { assert In(s[if j < i then j else j + 1], a); }
        else { assert In(s[i - 1], a) || start <= a < start + size || In(s[i], a); }
      }
      if Covers(s, a) {
        var j :| 0 <= j < |s| && In(s[j], a);
        assert In(r[if j < i then j else j - 1], a);
      }
      if start <= a < start + size { assert In(r[i - 1], a); }
    }
  }

  /** The edits of an addition, one by one: each is set union and keeps the form. */
  ghost predicate GoodUnion(s: seq<Block>, start: Word, size: Word, r: seq<Block>) {
    WellFormed(r) && IsUnion(s, start, size, r)
  }

  lemma JoinIsUnion(s: seq<Block>, i: nat, start: Word, size: Word)
    requires WellFormed(s) && i <= |s| && Left(s, i, start) && Right(s, i, start, size)
    requires 0 < size && s[i - 1].size + size + s[i].size < TWO_64
    ensures GoodUnion(s, start, size, Cut(s[i - 1 := Block(s[i - 1].start, s[i - 1].size + size + s[i].size)], i))
    ensures |Cut(s[i - 1 := Block(s[i - 1].start, s[i - 1].size + size + s[i].size)], i)| == |s| - 1
  {
    var b := Block(s[i - 1].start, s[i - 1].size + size + s[i].size);
    JoinTwo(s, i, b, start, size);
    JoinKeeps(s, i, b);
    hide Cut, IsUnion, WellFormed;
  }

  lemma LeftIsUnion(s: seq<Block>, i: nat, start: Word, size: Word)
    requires WellFormed(s) && i <= |s| && Left(s, i, start) && Proper(start, size)
    requires i < |s| ==> start + size < s[i].start
    ensures GoodUnion(s, start, size, s[i - 1 := Block(s[i - 1].start, s[i - 1].size + size)])
  {
    GrowOne(s, i - 1, Block(s[i - 1].start, s[i - 1].size + size), start, size);
    UpdateKeeps(s, i - 1, Block(s[i - 1].start, s[i - 1].size + size));
    hide IsUnion, WellFormed;
  }

  lemma RightIsUnion(s: seq<Block>, i: nat, start: Word, size: Word)
    requires WellFormed(s) && i <= |s| && Right(s, i, start, size) && 0 < size
    requires i > 0 ==> s[i - 1].End() < start
    ensures GoodUnion(s, start, size, s[i := Block(start, size + s[i].size)])
  {
    GrowOne(s, i, Block(start, size + s[i].size), start, size);
    UpdateKeeps(s, i, Block(start, size + s[i].size));
    hide IsUnion, WellFormed;
  }

  lemma NewIsUnion(s: seq<Block>, i: nat, start: Word, size: Word)
    requires WellFormed(s) && i <= |s| && Proper(start, size)
    requires (i > 0 ==> s[i - 1].End() < start) && (i < |s| ==> start + size < s[i].start)
    ensures GoodUnion(s, start, size, Inserted(s, i, Block(start, size)))
    ensures |Inserted(s, i, Block(start, size))| == |s| + 1
  {
    InsertOne(s, i, start, size);
    InsertKeeps(s, i, Block(start, size));
    InsertedAt(s, i, Block(start, size));
    hide Inserted, IsUnion, WellFormed;
  }

  /**
   Adding a disjoint range is set union and keeps the form; it is refused exactly when the table is
   full and the range touches no block, and then nothing changes.
   */
  lemma AddIsUnion(s: seq<Block>, total: nat, start: Word, size: Word)
    requires WellFormed(s) && |s| <= total && Proper(start, size) && Disjoint(s, start, size)
    ensures var r := Added(s, total, start, size);
            && |r.blocks| <= total
            && (r.status == Success <==> |s| < total || Touches(s, start, size))
            && (r.status == Success ==> GoodUnion(s, start, size, r.blocks))
            && (r.status != Success ==> r == Outcome(Error, s))
  {
    hide Place, Added, Cut, Inserted, WellFormed, Touches, Disjoint, GoodUnion;
    var i := Place(s, start);
    PlaceIsBetween(s, start, size);
    TouchesAtPlace(s, start, size);
    AddedExactly(s, total, start, size);
    if Left(s, i, start) && Right(s, i, start, size) {
      JoinIsUnion(s, i, start, size);
    } else if Left(s, i, start) {
      LeftIsUnion(s, i, start, size);
    } else if Right(s, i, start, size) {
      RightIsUnion(s, i, start, size);
    } else if |s| < total {
      NewIsUnion(s, i, start, size);
    }
  }

  /** Adding a range that overlaps the table breaks its form, unless the addition is refused. */
  lemma AddOverlapping(s: seq<Block>, total: nat, start: Word, size: Word)
    requires WellFormed(s) && |s| <= total && Proper(start, size) && !Disjoint(s, start, size)
    ensures var r := Added(s, total, start, size);
            r.status == Success ==> !WellFormed(r.blocks)
  {
    hide Place, Added, Cut, Inserted;
    var i := Place(s, start);
    var r := Added(s, total, start, size).blocks;
    AddedExactly(s, total, start, size);
    var k :| 0 <= k < |s| && s[k].End() > start && start + size > s[k].start;
    if Left(s, i, start) && !Right(s, i, start, size) {
      assert r[i - 1].End() == start + size && r[k] == s[k];
    } else if !Left(s, i, start) && Right(s, i, start, size) {
      assert r[k] == s[k] && r[i].start == start;
    } else if !Left(s, i, start) && |s| < total {
      InsertedAt(s, i, Block(start, size));
      assert r[i] == Block(start, size);
      var k' := if k < i then k else k + 1;
      assert r[k'] == s[k];
      if k < i { assert !(r[k'].End() < r[i].start); } else { assert !(r[i].End() < r[k'].start); }
    }
  }

  // ---------------------------------------------------------------- removing

  /** The range lies strictly inside a block, so its removal needs one more entry. */
  ghost predicate Interior(s: seq<Block>, start: Word, size: Word) {
    exists i :: 0 <= i < |s| && s[i].start < start && start + size < s[i].End()
  }

  lemma MatchIsHolds(s: seq<Block>, i: nat, start: Word, size: Word)
    requires WellFormed(s) && i < |s| && start + size < TWO_64
    ensures Matches(s[i], start, size) <==> Holds(s[i], start, size)
    ensures Wrap(start + size) == start + size && Wrap(s[i].start + s[i].size) == s[i].End()
  {
    hide Wrap;
    WrapSmall(start + size);
    WrapSmall(s[i].End());
  }

  /** The block found is the only one that holds the range. */
  lemma FoundHolds(s: seq<Block>, start: Word, size: Word)
    requires WellFormed(s) && start + size < TWO_64
    ensures var i := FirstMatch(s, start, size);
            && (i < |s| <==> Contained(s, start, size))
            && (i < |s| ==> Holds(s[i], start, size))
            && (i < |s| ==> forall j :: 0 <= j < |s| && j != i ==> !Holds(s[j], start, size))
            && (Interior(s, start, size) <==> i < |s| && s[i].start < start && start + size < s[i].End())
  {
    var i := FirstMatch(s, start, size);
    hide FirstMatch;
    forall j | 0 <= j < |s|
      ensures Matches(s[j], start, size) <==> Holds(s[j], start, size)
    {
      MatchIsHolds(s, j, start, size);
    }
    hide Matches;
    if Interior(s, start, size) {
      var j :| 0 <= j < |s| && s[j].start < start && start + size < s[j].End();
      assert Holds(s[j], start, size);
    }
  }

  /** Under exact arithmetic a removal is one of these four edits, or refused. */
  lemma RemovedExactly(s: seq<Block>, total: nat, start: Word, size: Word)
    requires WellFormed(s) && start + size < TWO_64
    ensures var i, r, end := FirstMatch(s, start, size), Removed(s, total, start, size), start + size;
            if i == |s| then r == Outcome(NotFound, s)
            else
              && Holds(s[i], start, size)
              && var lo, hi := s[i].start, s[i].End();
              if start == lo && end == hi then r == Outcome(Success, Cut(s, i))
              else if start > lo && end < hi then
                if |s| >= total then r == Outcome(OutOfResource, s)
                else r == Outcome(Success, Inserted(s[i := Block(lo, start - lo)], i + 1, Block(end, hi - end)))
              else if start == lo then r == Outcome(Success, s[i := Block(end, hi - end)])
              else r == Outcome(Success, s[i := Block(lo, start - lo)])
  {
    hide FirstMatch, Cut, Inserted;
    var i := FirstMatch(s, start, size);
    if i < |s| {
      MatchIsHolds(s, i, start, size);
    }
    hide Wrap, Matches;
  }

  lemma ShrinkOne(s: seq<Block>, i: nat, b: Block, start: Word, size: Word)
    requires WellFormed(s) && i < |s| && Holds(s[i], start, size)
    requires forall a :: In(b, a) <==> In(s[i], a) && !(start <= a < start + size)
    ensures IsDifference(s, start, size, s[i := b])
  {
    var r := s[i := b];
    forall a
      ensures Covers(r, a) <==> Covers(s, a) && !(start <= a < start + size)
    {
      if Covers(r, a) {
        var j :| 0 <= j < |r| && In(r[j], a);
        assert In(s[j], a);
      }
      if Covers(s, a) && !(start <= a < start + size) {
        var j :| 0 <= j < |s| && In(s[j], a);
        assert In(r[j], a);
      }
    }
  }

  lemma CoveredBy(s: seq<Block>, i: nat, a: int)
    requires i < |s| && In(s[i], a)
    ensures Covers(s, a)
  {
  }

  lemma CutCovers(s: seq<Block>, i: nat, a: int)
    requires WellFormed(s) && i < |s|
    ensures Covers(Cut(s, i), a) <==> Covers(s, a) && !In(s[i], a)
  {
    var r := Cut(s, i);
    CutAt(s, i);
    hide Cut;
    if Covers(r, a) {
      var j :| 0 <= j < |r| && In(r[j], a);
      CoveredBy(s, if j < i then j else j + 1, a);
    }
    if Covers(s, a) && !In(s[i], a) {
      var j :| 0 <= j < |s| && In(s[j], a);
      CoveredBy(r, if j < i then j else j - 1, a);
    }
  }

  lemma CutOne(s: seq<Block>, i: nat)
    requires WellFormed(s) && i < |s|
    ensures IsDifference(s, s[i].start, s[i].size, Cut(s, i))
  {
    hide Cut, Covers, WellFormed;
    forall a
      ensures Covers(Cut(s, i), a) <==> Covers(s, a) && !In(s[i], a)
    {
      CutCovers(s, i, a);
    }
  }

  lemma SplitKeeps(s: seq<Block>, i: nat, left: Block, right: Block)
    requires WellFormed(s) && i < |s| && 0 < left.size && 0 < right.size
    requires left.start == s[i].start && left.End() < right.start && right.End() == s[i].End()
    ensures WellFormed(Inserted(s[i := left], i + 1, right)) && |Inserted(s[i := left], i + 1, right)| == |s| + 1
  {
    var mid := s[i := left];
    assert FitsBetween(s, i - 1, i + 1, left) && FitsBetween(mid, i, i + 1, right);
    hide WellFormed, Inserted;
    UpdateKeeps(s, i, left);
    InsertKeeps(mid, i + 1, right);
    InsertedAt(mid, i + 1, right);
  }

  /** Taking a range up to `top` out and putting its upper part back. */
  lemma OutAndBack(s: seq<Block>, mid: seq<Block>, r: seq<Block>, start: Word, size: Word, rest: Word)
    requires start + size + rest < TWO_64
    requires IsDifference(s, start, size + rest, mid) && IsUnion(mid, start + size, rest, r)
    requires forall a :: start + size <= a < start + size + rest ==> Covers(s, a)
    ensures IsDifference(s, start, size, r)
  {
    hide Covers;
  }

  lemma SplitOne(s: seq<Block>, i: nat, start: Word, size: Word)
    requires WellFormed(s) && i < |s| && Proper(start, size) && s[i].start < start && start + size < s[i].End()
    ensures var r := Inserted(s[i := Block(s[i].start, start - s[i].start)], i + 1,
                              Block(start + size, s[i].End() - (start + size)));
            WellFormed(r) && IsDifference(s, start, size, r) && |r| == |s| + 1
  {
    var left, right := Block(s[i].start, start - s[i].start), Block(start + size, s[i].End() - (start + size));
    var mid := s[i := left];
    SplitKeeps(s, i, left, right);
    assert IsDifference(s, start, s[i].End() - start, mid) by {
      ShrinkOne(s, i, left, start, s[i].End() - start);
    }
    hide WellFormed, Inserted, IsDifference, IsUnion;
    InsertOne(mid, i + 1, start + size, right.size);
    forall a | start + size <= a < start + size + right.size
      ensures Covers(s, a)
    {
      CoveredBy(s, i, a);
    }
    OutAndBack(s, mid, Inserted(mid, i + 1, right), start, size, right.size);
  }

  /** The edits of a removal: each is set difference and keeps the form. */
  ghost predicate GoodDifference(s: seq<Block>, start: Word, size: Word, r: seq<Block>) {
    WellFormed(r) && IsDifference(s, start, size, r)
  }

  lemma CutIsDifference(s: seq<Block>, i: nat)
    requires WellFormed(s) && i < |s|
    ensures GoodDifference(s, s[i].start, s[i].size, Cut(s, i)) && |Cut(s, i)| == |s| - 1
  {
    CutOne(s, i);
    CutKeeps(s, i);
    CutAt(s, i);
    hide Cut, IsDifference, WellFormed;
  }

  lemma SplitIsDifference(s: seq<Block>, i: nat, start: Word, size: Word)
    requires WellFormed(s) && i < |s| && Proper(start, size) && s[i].start < start && start + size < s[i].End()
    ensures var r := Inserted(s[i := Block(s[i].start, start - s[i].start)], i + 1,
                              Block(start + size, s[i].End() - (start + size)));
            GoodDifference(s, start, size, r) && |r| == |s| + 1
  {
    hide WellFormed, Inserted, IsDifference;
    SplitOne(s, i, start, size);
  }

  lemma TrimIsDifference(s: seq<Block>, i: nat, b: Block, start: Word, size: Word)
    requires WellFormed(s) && i < |s| && Holds(s[i], start, size) && 0 < size < s[i].size
    requires (start == s[i].start && b == Block(start + size, s[i].size - size))
          || (start + size == s[i].End() && b == Block(s[i].start, s[i].size - size))
    ensures GoodDifference(s, start, size, s[i := b])
  {
    ShrinkOne(s, i, b, start, size);
    UpdateKeeps(s, i, b);
    hide IsDifference, WellFormed;
  }

  /**
   Removing a range is set difference and keeps the form. It is refused exactly when no block holds
   the range, or when a block would have to be split and the table is full; then nothing changes.
   */
  lemma RemoveIsDifference(s: seq<Block>, total: nat, start: Word, size: Word)
    requires WellFormed(s) && |s| <= total && Proper(start, size)
    ensures var r := Removed(s, total, start, size);
            && |r.blocks| <= total
            && (r.status == NotFound <==> !Contained(s, start, size))
            && (r.status == OutOfResource <==> Interior(s, start, size) && |s| == total)
            && (r.status == Success ==> GoodDifference(s, start, size, r.blocks))
            && (r.status != Success ==> r.blocks == s)
            && (Interior(s, start, size) && r.status == Success ==> |r.blocks| == |s| + 1)
            && r.status != Error
  {
    hide FirstMatch, Removed, Contained, Interior, Cut, Inserted, WellFormed, IsDifference, GoodDifference;
    var i := FirstMatch(s, start, size);
    FoundHolds(s, start, size);
    RemovedExactly(s, total, start, size);
    if i < |s| {
      var lo, hi, end := s[i].start, s[i].End(), start + size;
      if start == lo && end == hi {
        CutIsDifference(s, i);
      } else if start > lo && end < hi {
        SplitIsDifference(s, i, start, size);
      } else if start == lo {
        TrimIsDifference(s, i, Block(end, hi - end), start, size);
      } else {
        TrimIsDifference(s, i, Block(lo, start - lo), start, size);
      }
    }
  }
}
