/**
 The page services of the kernel: a task's free and used tables, between which pages of 2 MiB move.
 */
module KernMem {
  import opened Constants
  import opened Words
  import opened Vmm
  import opened VmmRanges
  import opened VmmCanonical

  const USER_VADDR_START: Word := 0x80_0000
  const USER_STACK_VADDR_BASE: Word := 0x8000_0000_0000 - PG_SIZE

  /** The two tables and their capacities. */
  datatype Space = Space(free: seq<Block>, used: seq<Block>, freeTotal: nat, usedTotal: nat)

  datatype Reply = Reply(ok: bool, vaddr: Word, space: Space)

  /** kern_allocate_page: take from the free table, enter into the used table, or put it back. */
  function Allocated(s: Space): Reply {
    var i := FirstFit(s.free, PG_SIZE);
    if i == |s.free| then Reply(false, 0, s)
    else
      var v := s.free[i].start;
      var taken := Removed(s.free, s.freeTotal, v, PG_SIZE).blocks;
      var entered := Added(s.used, s.usedTotal, v, PG_SIZE);
      if entered.status == Success then Reply(true, v, s.(free := taken, used := entered.blocks))
      else Reply(false, 0, s.(free := Added(taken, s.freeTotal, v, PG_SIZE).blocks, used := entered.blocks))
  }

  /** kern_free_page, as far as the tables go: neither status is looked at. */
  function Freed(s: Space, v: Word): Space {
    s.(used := Removed(s.used, s.usedTotal, v, PG_SIZE).blocks, free := Added(s.free, s.freeTotal, v, PG_SIZE).blocks)
  }

  class AddressSpace {
    const free: RangeTable
    const used: RangeTable

    ghost predicate Valid()
      reads free, used
    {
      && free != used && free.blocks != used.blocks
      && free.Valid() && used.Valid()
    }

    ghost function Abstract(): Space
      reads free, used, free.blocks, used.blocks
      requires Valid()
    {
      Space(free.Contents(), used.Contents(), free.blocks.Length, used.blocks.Length)
    }

    /** user_vaddr_table_init */
    constructor (total: nat)
      ensures Valid() && fresh(free) && fresh(used) && fresh(free.blocks) && fresh(used.blocks)
      ensures Abstract() == Boot(total)
    {
      var b := new Block[total](_ => Block(0, 0));
      var f := new RangeTable(b);
      var ignored := f.AddRange(USER_VADDR_START, USER_STACK_VADDR_BASE - USER_VADDR_START);
      var c := new Block[total](_ => Block(0, 0));
      var u := new RangeTable(c);
      free, used := f, u;
    }

    method AllocatePage() returns (ok: bool, vaddr: Word)
      requires Valid()
      modifies free, used, free.blocks, used.blocks
      ensures Valid()
      ensures Reply(ok, vaddr, Abstract()) == Allocated(old(Abstract()))
    {
      var status, v := free.Alloc(PG_SIZE);
      if status != Success {
        return false, 0;
      }
      status := used.AddRange(v, PG_SIZE);
      if status != Success {
        var ignored := free.AddRange(v, PG_SIZE);
        return false, 0;
      }
      return true, v;
    }

    method FreePage(vaddr: Word)
      requires Valid()
      modifies free, used, free.blocks, used.blocks
      ensures Valid() && Abstract() == Freed(old(Abstract()), vaddr)
    {
      var ignored := used.RemoveRange(vaddr, PG_SIZE);
      ignored := free.AddRange(vaddr, PG_SIZE);
    }
  }

  function Boot(total: nat): Space {
    Space(Added([], total, USER_VADDR_START, USER_STACK_VADDR_BASE - USER_VADDR_START).blocks, [], total, total)
  }

  // ---------------------------------------------------------------- the tables partition the range

  ghost predicate PageAligned(s: seq<Block>) {
    forall i :: 0 <= i < |s| ==> s[i].start % PG_SIZE == 0 && s[i].size % PG_SIZE == 0
  }

  /** Every address of [lo, hi) is in exactly one table, and no other address is in either. */
  ghost predicate Complementary(f: seq<Block>, u: seq<Block>, lo: int, hi: int) {
    && WellFormed(f) && WellFormed(u)
    && forall a :: (Covers(f, a) || Covers(u, a) <==> lo <= a < hi) && !(Covers(f, a) && Covers(u, a))
  }

  ghost predicate Partition(s: Space) {
    && Complementary(s.free, s.used, USER_VADDR_START, USER_STACK_VADDR_BASE)
    && PageAligned(s.free) && PageAligned(s.used)
    && |s.free| <= s.freeTotal && |s.used| <= s.usedTotal
  }

  /** Complementary tables take turns, so their entry counts differ by at most one. */
  lemma {:induction false} TakeTurns(f: seq<Block>, u: seq<Block>, lo: int, hi: int)
    requires Complementary(f, u, lo, hi) && lo <= hi && (lo < hi ==> Covers(f, lo))
    ensures |u| <= |f| <= |u| + 1
    decreases |f| + |u|
  {
    if f == [] {
      if u != [] { assert In(u[0], u[0].start) && Covers(u, u[0].start); }
    } else {
      var e := f[0].End();
      assert In(f[0], f[0].start) && Covers(f, f[0].start);
      assert In(f[0], e - 1) && Covers(f, e - 1);
      HeadIsLeast(f, lo);
      forall a
        ensures (Covers(u, a) || Covers(f[1..], a) <==> e <= a < hi) && !(Covers(u, a) && Covers(f[1..], a))
      {
        TailCovers(f, a);
        if lo <= a < e { assert In(f[0], a) && Covers(f, a); }
        if Covers(f, a) { HeadIsLeast(f, a); }
      }
      if e < hi {
        if Covers(f, e) { HeadIsLeast(f, e); }
      }
      TakeTurns(u, f[1..], e, hi);
    }
  }

  lemma CountsDifferByOne(s: Space)
    requires Partition(s)
    ensures -1 <= |s.free| - |s.used| <= 1
  {
    var lo, hi := USER_VADDR_START, USER_STACK_VADDR_BASE;
    if Covers(s.free, lo) {
      TakeTurns(s.free, s.used, lo, hi);
    } else {
      TakeTurns(s.used, s.free, lo, hi);
    }
  }

  // ---------------------------------------------------------------- alignment

  predicate Aligned(x: int) {
    x % PG_SIZE == 0
  }

  lemma AlignedSum(x: int, y: int)
    requires Aligned(x) && Aligned(y)
    ensures Aligned(x + y) && Aligned(x - y)
  {
  }

  lemma UpdateAligned(s: seq<Block>, i: nat, b: Block)
    requires PageAligned(s) && i < |s| && Aligned(b.start) && Aligned(b.size)
    ensures PageAligned(s[i := b])
  {
  }

  lemma InsertAligned(s: seq<Block>, i: nat, b: Block)
    requires PageAligned(s) && i <= |s| && Aligned(b.start) && Aligned(b.size)
    ensures PageAligned(Inserted(s, i, b))
  {
    InsertedAt(s, i, b);
    hide Inserted;
  }

  lemma CutAligned(s: seq<Block>, i: nat)
    requires PageAligned(s) && i < |s|
    ensures PageAligned(Cut(s, i))
  {
    CutAt(s, i);
    hide Cut;
  }

  lemma SizesAligned(s: seq<Block>)
    requires PageAligned(s)
    ensures forall i :: 0 <= i < |s| ==> Aligned(s[i].start) && Aligned(s[i].size)
  {
  }

  lemma AddedAligned(s: seq<Block>, total: nat, start: Word, size: Word)
    requires WellFormed(s) && Proper(start, size) && PageAligned(s) && Aligned(start) && Aligned(size)
    ensures PageAligned(Added(s, total, start, size).blocks)
  {
    hide Added, Place, Aligned, Cut, Inserted, WellFormed, PageAligned;
    AddedExactly(s, total, start, size);
    var i := Place(s, start);
    SumsFit(s, i, start, size);
    SizesAligned(s);
    if Left(s, i, start) && Right(s, i, start, size) {
      AlignedSum(s[i - 1].size, size);
      AlignedSum(s[i - 1].size + size, s[i].size);
      var b := Block(s[i - 1].start, s[i - 1].size + size + s[i].size);
      UpdateAligned(s, i - 1, b);
      CutAligned(s[i - 1 := b], i);
    } else if Left(s, i, start) {
      AlignedSum(s[i - 1].size, size);
      UpdateAligned(s, i - 1, Block(s[i - 1].start, s[i - 1].size + size));
    } else if Right(s, i, start, size) {
      AlignedSum(size, s[i].size);
      UpdateAligned(s, i, Block(start, size + s[i].size));
    } else if |s| < total {
      InsertAligned(s, i, Block(start, size));
    }
  }

  lemma RemovedAligned(s: seq<Block>, total: nat, start: Word, size: Word)
    requires WellFormed(s) && Proper(start, size) && PageAligned(s) && Aligned(start) && Aligned(size)
    ensures PageAligned(Removed(s, total, start, size).blocks)
  {
    hide Removed, FirstMatch, Aligned, Cut, Inserted, WellFormed, PageAligned;
    RemovedExactly(s, total, start, size);
    SizesAligned(s);
    var i := FirstMatch(s, start, size);
    if i < |s| {
      var lo, hi, end := s[i].start, s[i].End(), start + size;
      AlignedSum(start, size);
      AlignedSum(start, lo);
      AlignedSum(lo, s[i].size);
      AlignedSum(hi, end);
      if start == lo && end == hi {
        CutAligned(s, i);
      } else if start > lo && end < hi {
        UpdateAligned(s, i, Block(lo, start - lo));
        InsertAligned(s[i := Block(lo, start - lo)], i + 1, Block(end, hi - end));
      } else if start == lo {
        UpdateAligned(s, i, Block(end, hi - end));
      } else {
        UpdateAligned(s, i, Block(lo, start - lo));
      }
    }
  }

  // ---------------------------------------------------------------- moving pages

  /** The page is free before and used afterwards; no other address changes hands. */
  ghost predicate Moved(from: seq<Block>, to: seq<Block>, from': seq<Block>, to': seq<Block>, v: Word) {
    && CoversAll(from, v, PG_SIZE)
    && IsDifference(from, v, PG_SIZE, from')
    && IsUnion(to, v, PG_SIZE, to')
  }

  lemma MovedStaysComplementary(f: seq<Block>, u: seq<Block>, f': seq<Block>, u': seq<Block>, v: Word, lo: int, hi: int)
    requires Complementary(f, u, lo, hi) && WellFormed(f') && WellFormed(u')
    requires Moved(f, u, f', u', v)
    ensures Complementary(f', u', lo, hi)
  {
    hide WellFormed, Covers;
    forall a
      ensures (Covers(f', a) || Covers(u', a) <==> lo <= a < hi) && !(Covers(f', a) && Covers(u', a))
    {
      assert Covers(f', a) <==> Covers(f, a) && !(v <= a < v + PG_SIZE);
      assert Covers(u', a) <==> Covers(u, a) || v <= a < v + PG_SIZE;
    }
  }

  lemma OtherTableIsDisjoint(f: seq<Block>, u: seq<Block>, v: Word, lo: int, hi: int)
    requires Complementary(f, u, lo, hi) && CoversAll(f, v, PG_SIZE)
    ensures Disjoint(u, v, PG_SIZE)
  {
    DisjointIsUncovered(u, v, PG_SIZE);
    hide Disjoint, WellFormed, Covers;
  }

  /**
   Allocation keeps the partition. It moves the lowest free page; it fails exactly when no free page
   is left or the used table has no room for a separate entry, and then both tables are as before,
   the free table entry for entry.
   */
  lemma AllocationKeepsPartition(s: Space)
    requires Partition(s)
    ensures var r, i := Allocated(s), FirstFit(s.free, PG_SIZE);
            && Partition(r.space)
            && (r.ok ==> Aligned(r.vaddr) && Moved(s.free, s.used, r.space.free, r.space.used, r.vaddr))
            && (r.ok ==> forall a: Word :: a < r.vaddr && a + PG_SIZE < TWO_64 ==> !CoversAll(s.free, a, PG_SIZE))
            && (!r.ok ==> r.space == s)
            && (r.ok <==> i < |s.free| && (|s.used| < s.usedTotal || Touches(s.used, s.free[i].start, PG_SIZE)))
  {
    hide Removed, Added;
    var i := FirstFit(s.free, PG_SIZE);
    AllocTakesFirstFit(s.free, s.freeTotal, PG_SIZE);
    if i < |s.free| {
      var v := s.free[i].start;
      var taken := Removed(s.free, s.freeTotal, v, PG_SIZE);
      OtherTableIsDisjoint(s.free, s.used, v, USER_VADDR_START, USER_STACK_VADDR_BASE);
      AddIsUnion(s.used, s.usedTotal, v, PG_SIZE);
      RemoveIsDifference(s.free, s.freeTotal, v, PG_SIZE);
      RemoveThenAdd(s.free, s.freeTotal, v, PG_SIZE);
      RemovedAligned(s.free, s.freeTotal, v, PG_SIZE);
      AddedAligned(s.used, s.usedTotal, v, PG_SIZE);
      var entered := Added(s.used, s.usedTotal, v, PG_SIZE);
      hide WellFormed, Covers, Disjoint, Touches, Contained, Interior, IsUnion, IsDifference;
      if entered.status == Success {
        MovedStaysComplementary(s.free, s.used, taken.blocks, entered.blocks, v, USER_VADDR_START,
            USER_STACK_VADDR_BASE);
      }
      hide CoversAll;
    }
  }

  /** Both tables have room for the page to move back. */
  ghost predicate RoomToFree(s: Space, v: Word) {
    && !(Interior(s.used, v, PG_SIZE) && |s.used| == s.usedTotal)
    && (|s.free| < s.freeTotal || Touches(s.free, v, PG_SIZE))
  }

  lemma SwapComplementary(f: seq<Block>, u: seq<Block>, lo: int, hi: int)
    requires Complementary(f, u, lo, hi)
    ensures Complementary(u, f, lo, hi)
  {
  }

  /**
   Freeing a page that is in use keeps the partition and makes the page free if and only if both
   tables have room; the service itself looks at neither status.
   */
  lemma FreeingKeepsPartitionIff(s: Space, v: Word)
    requires Partition(s) && Aligned(v) && v + PG_SIZE < TWO_64 && CoversAll(s.used, v, PG_SIZE)
    ensures var t := Freed(s, v);
            Partition(t) && CoversAll(t.free, v, PG_SIZE) <==> RoomToFree(s, v)
    ensures RoomToFree(s, v) ==> Moved(s.used, s.free, Freed(s, v).used, Freed(s, v).free, v)
  {
    hide Removed, Added;
    var lo, hi := USER_VADDR_START, USER_STACK_VADDR_BASE;
    var t := Freed(s, v);
    SwapComplementary(s.free, s.used, lo, hi);
    OtherTableIsDisjoint(s.used, s.free, v, lo, hi);
    CoveredIsContained(s.used, v, PG_SIZE);
    RemoveIsDifference(s.used, s.usedTotal, v, PG_SIZE);
    AddIsUnion(s.free, s.freeTotal, v, PG_SIZE);
    RemovedAligned(s.used, s.usedTotal, v, PG_SIZE);
    AddedAligned(s.free, s.freeTotal, v, PG_SIZE);
    hide WellFormed, Disjoint, Touches, Contained, Interior, Covers;
    if RoomToFree(s, v) {
      MovedStaysComplementary(s.used, s.free, t.used, t.free, v, lo, hi);
      SwapComplementary(t.used, t.free, lo, hi);
    } else {
      assert Covers(s.used, v) && !Covers(s.free, v);
    }
  }

  // ---------------------------------------------------------------- any address

  /**
   vmm_remove_range leaves the table alone: no block passes its test, or the one found needs splitting without room.
   */
  predicate RemovalRefused(s: seq<Block>, total: nat, start: Word, size: Word) {
    var i := FirstMatch(s, start, size);
    i == |s| || (s[i].start < start && Wrap(start + size) < Wrap(s[i].start + s[i].size) && |s| >= total)
  }

  /** vmm_add_range leaves the table alone: it is full, and the range continues no block on either side. */
  predicate AdditionRefused(s: seq<Block>, total: nat, start: Word, size: Word) {
    var i := Place(s, start);
    |s| >= total && !JoinsLeft(s, i, start) && !JoinsRight(s, i, start, size)
  }

  lemma RefusedStays(s: seq<Block>, total: nat, start: Word, size: Word)
    ensures RemovalRefused(s, total, start, size) <==> Removed(s, total, start, size).status != Success
    ensures RemovalRefused(s, total, start, size) ==> Removed(s, total, start, size).blocks == s
    ensures AdditionRefused(s, total, start, size) <==> Added(s, total, start, size).status != Success
    ensures AdditionRefused(s, total, start, size) ==> Added(s, total, start, size).blocks == s
  {
    hide Wrap, Cut, Inserted, Place, FirstMatch;
  }

  /** Neither table is touched. */
  predicate BothRefused(s: Space, v: Word) {
    RemovalRefused(s.used, s.usedTotal, v, PG_SIZE) && AdditionRefused(s.free, s.freeTotal, v, PG_SIZE)
  }

  lemma BothRefusedStays(s: Space, v: Word)
    requires BothRefused(s, v)
    ensures Freed(s, v) == s
  {
    hide Removed, Added, RemovalRefused, AdditionRefused;
    RefusedStays(s.used, s.usedTotal, v, PG_SIZE);
    RefusedStays(s.free, s.freeTotal, v, PG_SIZE);
  }

  /** The page is in use and both tables have room for it to move back. */
  ghost predicate GoesBack(s: Space, v: Word) {
    Aligned(v) && v + PG_SIZE < TWO_64 && CoversAll(s.used, v, PG_SIZE) && RoomToFree(s, v)
  }

  lemma StillComplementary(s: Space, t: Space, v: Word)
    requires Partition(s) && Partition(t)
    ensures !(Covers(s.used, v) && Covers(t.used, v) && Covers(t.free, v))
    ensures Covers(s.used, v) ==> Covers(t.used, v) || Covers(t.free, v)
    ensures Covers(t.free, v) && !Covers(s.free, v) ==> Covers(s.used, v)
  {
    hide Covers, WellFormed, PageAligned;
  }

  /** Of a page in use: if just one edit is made, the page is in both tables or in neither. */
  lemma InUseKept(s: Space, v: Word)
    requires Partition(s) && v + PG_SIZE < TWO_64 && CoversAll(s.used, v, PG_SIZE)
    requires RemovalRefused(s.used, s.usedTotal, v, PG_SIZE) != AdditionRefused(s.free, s.freeTotal, v, PG_SIZE)
    ensures !Partition(Freed(s, v))
  {
    var t := Freed(s, v);
    OtherInUse(s, v);
    CoveredIsContained(s.used, v, PG_SIZE);
    assert Covers(s.used, v) && !Covers(s.free, v);
    hide Removed, Added, RemovalRefused, AdditionRefused, Partition;
    RefusedStays(s.used, s.usedTotal, v, PG_SIZE);
    RefusedStays(s.free, s.freeTotal, v, PG_SIZE);
    RemoveIsDifference(s.used, s.usedTotal, v, PG_SIZE);
    AddIsUnion(s.free, s.freeTotal, v, PG_SIZE);
    hide WellFormed, Covers, Disjoint, Touches, Contained, Interior;
    if Partition(t) {
      StillComplementary(s, t, v);
    }
  }

  lemma OtherInUse(s: Space, v: Word)
    requires Partition(s) && CoversAll(s.used, v, PG_SIZE)
    ensures WellFormed(s.used) && WellFormed(s.free) && |s.used| <= s.usedTotal && |s.free| <= s.freeTotal
    ensures Disjoint(s.free, v, PG_SIZE) && !Covers(s.free, v) && Covers(s.used, v)
  {
    SwapComplementary(s.free, s.used, USER_VADDR_START, USER_STACK_VADDR_BASE);
    OtherTableIsDisjoint(s.used, s.free, v, USER_VADDR_START, USER_STACK_VADDR_BASE);
    hide Disjoint, WellFormed, Covers, PageAligned;
  }

  /** Cutting at an address that is not a multiple of the page size leaves an unaligned block. */
  lemma UnalignedCut(s: seq<Block>, total: nat, v: Word)
    requires WellFormed(s) && PageAligned(s) && v + PG_SIZE < TWO_64 && !Aligned(v)
    requires Removed(s, total, v, PG_SIZE).status == Success
    ensures !PageAligned(Removed(s, total, v, PG_SIZE).blocks)
  {
    hide Removed, FirstMatch, WellFormed, Cut, Inserted;
    RemovedExactly(s, total, v, PG_SIZE);
    var i := FirstMatch(s, v, PG_SIZE);
    SizesAligned(s);
    AlignedSum(s[i].start, s[i].size);
    assert s[i].start != v;
    if v + PG_SIZE == s[i].End() {
      AlignedSum(s[i].End(), PG_SIZE);
    }
    var left, right := Block(s[i].start, v - s[i].start), Block(v + PG_SIZE, s[i].End() - (v + PG_SIZE));
    InsertedAt(s[i := left], i + 1, right);
    var r := Removed(s, total, v, PG_SIZE).blocks;
    assert r[i] == left;
    if Aligned(left.size) {
      AlignedSum(s[i].start, left.size);
    }
  }

  /**
   A range below the top that does not lie in a used block: only the addition can change anything, and it is wrong.
   */
  lemma NotInUseKept(s: Space, v: Word)
    requires Partition(s) && v + PG_SIZE < TWO_64 && !CoversAll(s.used, v, PG_SIZE)
    ensures RemovalRefused(s.used, s.usedTotal, v, PG_SIZE)
    ensures Partition(Freed(s, v)) ==> AdditionRefused(s.free, s.freeTotal, v, PG_SIZE)
  {
    var t := Freed(s, v);
    if Contained(s.used, v, PG_SIZE) {
      ContainedIsCovered(s.used, v, PG_SIZE);
    }
    hide Removed, Added, RemovalRefused, AdditionRefused, CoversAll;
    RefusedStays(s.used, s.usedTotal, v, PG_SIZE);
    RefusedStays(s.free, s.freeTotal, v, PG_SIZE);
    RemoveIsDifference(s.used, s.usedTotal, v, PG_SIZE);
    if !AdditionRefused(s.free, s.freeTotal, v, PG_SIZE) && Partition(t) {
      AddedWrongly(s, v);
    }
  }

  lemma AddedWrongly(s: Space, v: Word)
    requires Partition(s) && v + PG_SIZE < TWO_64 && Added(s.free, s.freeTotal, v, PG_SIZE).status == Success
    requires Freed(s, v).used == s.used
    ensures !Partition(Freed(s, v))
  {
    hide Removed, Added;
    var t := Freed(s, v);
    if Disjoint(s.free, v, PG_SIZE) {
      AddIsUnion(s.free, s.freeTotal, v, PG_SIZE);
      DisjointIsUncovered(s.free, v, PG_SIZE);
      hide WellFormed, Disjoint, Touches;
      assert Covers(t.free, v) && !Covers(s.free, v);
      hide Covers, Partition, IsUnion;
      if Partition(t) {
        StillComplementary(s, t, v);
      }
    } else {
      AddOverlapping(s.free, s.freeTotal, v, PG_SIZE);
      hide Disjoint;
    }
  }

  /** Blocks of either table lie in the user range. */
  lemma InUserRange(s: Space)
    requires Partition(s)
    ensures forall i :: 0 <= i < |s.free| ==>
              USER_VADDR_START <= s.free[i].start && s.free[i].End() <= USER_STACK_VADDR_BASE
    ensures forall i :: 0 <= i < |s.used| ==>
              USER_VADDR_START <= s.used[i].start && s.used[i].End() <= USER_STACK_VADDR_BASE
  {
    forall i | 0 <= i < |s.free|
      ensures USER_VADDR_START <= s.free[i].start && s.free[i].End() <= USER_STACK_VADDR_BASE
    {
      assert In(s.free[i], s.free[i].start) && Covers(s.free, s.free[i].start);
      assert In(s.free[i], s.free[i].End() - 1) && Covers(s.free, s.free[i].End() - 1);
    }
    forall i | 0 <= i < |s.used|
      ensures USER_VADDR_START <= s.used[i].start && s.used[i].End() <= USER_STACK_VADDR_BASE
    {
      assert In(s.used[i], s.used[i].start) && Covers(s.used, s.used[i].start);
      assert In(s.used[i], s.used[i].End() - 1) && Covers(s.used, s.used[i].End() - 1);
    }
  }

  /** A range that wraps passes the test of every used block, which then becomes two that overlap. */
  lemma WrappedRemoval(u: seq<Block>, total: nat, v: Word)
    requires v + PG_SIZE >= TWO_64
    requires forall i :: 0 <= i < |u| ==> USER_VADDR_START <= u[i].start && u[i].End() <= USER_STACK_VADDR_BASE
    requires forall i :: 0 <= i < |u| ==> 0 < u[i].size
    ensures Removed(u, total, v, PG_SIZE).status == Success ==> !WellFormed(Removed(u, total, v, PG_SIZE).blocks)
  {
    var end := v + PG_SIZE - TWO_64;
    assert Wrap(v + PG_SIZE) == end;
    if u != [] {
      WrapSmall(u[0].End());
      assert Matches(u[0], v, PG_SIZE) && FirstMatch(u, v, PG_SIZE) == 0;
      hide FirstMatch, Wrap;
      if |u| < total {
        var left, right := Block(u[0].start, v - u[0].start), Block(end, u[0].End() - end);
        InsertedAt(u[0 := left], 1, right);
        var r := Inserted(u[0 := left], 1, right);
        assert Removed(u, total, v, PG_SIZE) == Outcome(Success, r);
        hide Inserted, Removed;
        assert r[0] == left && r[1] == right && !(r[0].End() < r[1].start);
      }
    }
  }

  lemma WrappedAddition(f: seq<Block>, total: nat, v: Word)
    requires v + PG_SIZE >= TWO_64
    requires forall i :: 0 <= i < |f| ==> f[i].End() <= USER_STACK_VADDR_BASE
    ensures Added(f, total, v, PG_SIZE).status == Success ==> !WellFormed(Added(f, total, v, PG_SIZE).blocks)
  {
    hide Place, Cut, Inserted;
    var i := Place(f, v);
    assert i == |f|;
    if i > 0 {
      WrapSmall(f[i - 1].End());
    }
    hide Wrap;
    if |f| < total {
      InsertedAt(f, i, Block(v, PG_SIZE));
      var r := Inserted(f, i, Block(v, PG_SIZE));
      assert Added(f, total, v, PG_SIZE) == Outcome(Success, r);
      hide Added;
      assert r[i].End() >= TWO_64;
    }
  }

  lemma WrappedKept(s: Space, v: Word)
    requires Partition(s) && v + PG_SIZE >= TWO_64
    ensures Partition(Freed(s, v)) ==> BothRefused(s, v)
  {
    InUserRange(s);
    hide Removed, Added, RemovalRefused, AdditionRefused, PageAligned, Covers;
    RefusedStays(s.used, s.usedTotal, v, PG_SIZE);
    RefusedStays(s.free, s.freeTotal, v, PG_SIZE);
    WrappedRemoval(s.used, s.usedTotal, v);
    WrappedAddition(s.free, s.freeTotal, v);
    hide WellFormed;
  }

  /**
   Freeing any address whatever. The tables stay a partition if and only if the page is in use and moves back, or
   neither table is touched; the code looks at the outcome of neither edit.
   */
  lemma FreeingAnyAddress(s: Space, v: Word)
    requires Partition(s)
    ensures Partition(Freed(s, v)) <==> GoesBack(s, v) || BothRefused(s, v)
    ensures GoesBack(s, v) ==> Moved(s.used, s.free, Freed(s, v).used, Freed(s, v).free, v)
    ensures BothRefused(s, v) ==> Freed(s, v) == s
  {
    if BothRefused(s, v) {
      BothRefusedStays(s, v);
    }
    if v + PG_SIZE >= TWO_64 {
      WrappedKept(s, v);
    } else if !CoversAll(s.used, v, PG_SIZE) {
      NotInUseKept(s, v);
    } else if Aligned(v) {
      InUseAligned(s, v);
    } else {
      InUseUnaligned(s, v);
    }
    hide Freed, Partition, BothRefused, CoversAll, RoomToFree;
  }

  lemma InUseAligned(s: Space, v: Word)
    requires Partition(s) && v + PG_SIZE < TWO_64 && CoversAll(s.used, v, PG_SIZE) && Aligned(v)
    ensures Partition(Freed(s, v)) ==> RoomToFree(s, v) || BothRefused(s, v)
    ensures RoomToFree(s, v) ==> Partition(Freed(s, v)) && Moved(s.used, s.free, Freed(s, v).used, Freed(s, v).free, v)
  {
    FreeingKeepsPartitionIff(s, v);
    RoomIsNotRefused(s, v);
    hide Freed, Partition, RemovalRefused, AdditionRefused, CoversAll, RoomToFree, Moved;
    if Partition(Freed(s, v)) &&
       RemovalRefused(s.used, s.usedTotal, v, PG_SIZE) != AdditionRefused(s.free, s.freeTotal, v, PG_SIZE) {
      InUseKept(s, v);
    }
  }

  /** For a range in use, having room is that neither edit is refused. */
  lemma RoomIsNotRefused(s: Space, v: Word)
    requires Partition(s) && v + PG_SIZE < TWO_64 && CoversAll(s.used, v, PG_SIZE)
    ensures RoomToFree(s, v) <==>
            !RemovalRefused(s.used, s.usedTotal, v, PG_SIZE) && !AdditionRefused(s.free, s.freeTotal, v, PG_SIZE)
  {
    OtherInUse(s, v);
    CoveredIsContained(s.used, v, PG_SIZE);
    hide Removed, Added, RemovalRefused, AdditionRefused, Partition;
    RefusedStays(s.used, s.usedTotal, v, PG_SIZE);
    RefusedStays(s.free, s.freeTotal, v, PG_SIZE);
    RemoveIsDifference(s.used, s.usedTotal, v, PG_SIZE);
    AddIsUnion(s.free, s.freeTotal, v, PG_SIZE);
    hide WellFormed, Covers, Disjoint, Touches, Contained, Interior;
  }

  lemma InUseUnaligned(s: Space, v: Word)
    requires Partition(s) && v + PG_SIZE < TWO_64 && CoversAll(s.used, v, PG_SIZE) && !Aligned(v)
    ensures Partition(Freed(s, v)) ==> BothRefused(s, v)
  {
    OtherInUse(s, v);
    hide Removed, Added, RemovalRefused, AdditionRefused, CoversAll, WellFormed, Covers, PageAligned, Aligned;
    RefusedStays(s.used, s.usedTotal, v, PG_SIZE);
    if RemovalRefused(s.used, s.usedTotal, v, PG_SIZE) != AdditionRefused(s.free, s.freeTotal, v, PG_SIZE) {
      InUseKept(s, v);
    } else if !RemovalRefused(s.used, s.usedTotal, v, PG_SIZE) {
      UnalignedCut(s.used, s.usedTotal, v);
    }
  }
}
