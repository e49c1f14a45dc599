/** Whole runs of the page services, and how far their tables stay a partition. */
module KernMemRuns {
  import opened Constants
  import opened Words
  import opened Vmm
  import opened VmmRanges
  import opened VmmCanonical
  import opened KernMem

  /** What a task asks for: a page, or that the page at an address of its own choice be freed. */
  datatype Request = Allocate | Free(v: Word)

  /** A free request either moves a page back or touches neither table. */
  ghost predicate Allowed(s: Space, q: Request) {
    q.Free? ==> GoesBack(s, q.v) || BothRefused(s, q.v)
  }

  function Serve(s: Space, q: Request): Space {
    match q
    case Allocate => Allocated(s).space
    case Free(v) => Freed(s, v)
  }

  ghost predicate AllAllowed(s: Space, qs: seq<Request>)
    decreases |qs|
  {
    qs == [] || (Allowed(s, qs[0]) && AllAllowed(Serve(s, qs[0]), qs[1..]))
  }

  function ServeAll(s: Space, qs: seq<Request>): Space
    decreases |qs|
  {
    if qs == [] then s else ServeAll(Serve(s, qs[0]), qs[1..])
  }

  /** The tables partition the user range after every request. */
  ghost predicate AlwaysPartition(s: Space, qs: seq<Request>)
    decreases |qs|
  {
    Partition(s) && (qs == [] || AlwaysPartition(Serve(s, qs[0]), qs[1..]))
  }

  lemma ServedPartition(s: Space, q: Request)
    requires Partition(s)
    ensures Partition(Serve(s, q)) <==> Allowed(s, q)
  {
    match q {
      case Allocate => AllocationKeepsPartition(s);
      case Free(v) => FreeingAnyAddress(s, v);
    }
    hide Allocated, Freed, Partition;
  }

  lemma {:induction false} PartitionIffAllowed(s: Space, qs: seq<Request>)
    requires Partition(s)
    ensures AlwaysPartition(s, qs) <==> AllAllowed(s, qs)
    ensures AllAllowed(s, qs) ==> Partition(ServeAll(s, qs))
    decreases |qs|
  {
    hide Serve, Partition, Allowed;
    if qs != [] {
      ServedPartition(s, qs[0]);
      if Partition(Serve(s, qs[0])) {
        PartitionIffAllowed(Serve(s, qs[0]), qs[1..]);
      } else {
        assert qs[1..] == [] ==> !AlwaysPartition(Serve(s, qs[0]), qs[1..]);
      }
    }
  }

  lemma BootIsPartition(total: nat)
    requires 0 < total
    ensures Partition(Boot(total))
  {
    var start, size := USER_VADDR_START, USER_STACK_VADDR_BASE - USER_VADDR_START;
    AddIsUnion([], total, start, size);
    AddedAligned([], total, start, size);
    hide Added, WellFormed;
    forall a
      ensures !Covers([], a)
    {
    }
    hide Covers;
  }

  /**
   Over every run of requests, with any addresses: the tables partition the user range throughout if and only if
   each free request moves a page in use back or touches neither table; and then they are equally long up to one.
   */
  lemma TablesAlwaysPartition(total: nat, qs: seq<Request>)
    requires 0 < total
    ensures AlwaysPartition(Boot(total), qs) <==> AllAllowed(Boot(total), qs)
    ensures AllAllowed(Boot(total), qs) ==>
              var s := ServeAll(Boot(total), qs);
              Partition(s) && -1 <= |s.free| - |s.used| <= 1
  {
    BootIsPartition(total);
    PartitionIffAllowed(Boot(total), qs);
    if AllAllowed(Boot(total), qs) {
      CountsDifferByOne(ServeAll(Boot(total), qs));
    }
  }

  // ---------------------------------------------------------------- a run into a page without room

  /** The address of page k of the user range. */
  function PageAt(k: nat): nat {
    USER_VADDR_START + k * PG_SIZE
  }

  lemma NextPage(k: nat)
    ensures PageAt(k + 1) == PageAt(k) + PG_SIZE
  {
  }

  lemma PagesInOrder(j: nat, k: nat)
    ensures j <= k ==> PageAt(j) <= PageAt(k)
    ensures j < k ==> PageAt(j) + PG_SIZE <= PageAt(k)
  {
  }

  function Allocates(n: nat): seq<Request> {
    if n == 0 then [] else [Allocate] + Allocates(n - 1)
  }

  /** Pages m, m + 2, and so on below n are freed. */
  function Frees(m: nat, n: nat): seq<Request>
    decreases n - m
  {
    if m >= n || PageAt(m) >= TWO_64 then [] else [Free(PageAt(m))] + Frees(m + 2, n)
  }

  /** The lowest k pages are in use, with one entry in each table. */
  function Grown(k: nat, total: nat): Space
    requires 1 <= k && PageAt(k) < USER_STACK_VADDR_BASE
  {
    var lo, n := USER_VADDR_START, k * PG_SIZE;
    Space([Block(lo + n, USER_STACK_VADDR_BASE - lo - n)], [Block(lo, n)], total, total)
  }

  lemma OneBlock(b: Block)
    requires 0 < b.size && b.End() < TWO_64
    ensures WellFormed([b])
  {
  }

  lemma TakesLowest(b: Block, total: nat)
    requires PG_SIZE < b.size && b.End() < TWO_64
    ensures FirstFit([b], PG_SIZE) == 0
    ensures Removed([b], total, b.start, PG_SIZE).blocks == [Block(b.start + PG_SIZE, b.size - PG_SIZE)]
  {
    hide Removed, FirstMatch, Cut, Inserted;
    OneBlock(b);
    WrapSmall(b.start + PG_SIZE);
    WrapSmall(b.End());
    assert Matches([b][0], b.start, PG_SIZE);
    RemovedExactly([b], total, b.start, PG_SIZE);
    assert FirstMatch([b], b.start, PG_SIZE) == 0;
    assert [b][0 := Block(b.start + PG_SIZE, b.size - PG_SIZE)] == [Block(b.start + PG_SIZE, b.size - PG_SIZE)];
  }

  lemma GrowsAbove(b: Block, total: nat)
    requires 0 < b.size && b.End() + PG_SIZE < TWO_64
    ensures Added([b], total, b.End(), PG_SIZE) == Outcome(Success, [Block(b.start, b.size + PG_SIZE)])
  {
    hide Added, Place, Cut, Inserted;
    OneBlock(b);
    AddedExactly([b], total, b.End(), PG_SIZE);
    assert Place([b], b.End()) == 1;
    assert [b][0 := Block(b.start, b.size + PG_SIZE)] == [Block(b.start, b.size + PG_SIZE)];
  }

  lemma FirstEntry(b: Block, total: nat)
    requires 0 < b.size && b.End() < TWO_64 && 0 < total
    ensures Added([], total, b.start, b.size) == Outcome(Success, [b])
  {
    hide Place, Cut;
    assert Place([], b.start) == 0;
    assert [] + [b] + [] == [b];
  }

  lemma GrowsByOne(k: nat, total: nat)
    requires 1 <= k && PageAt(k + 1) < USER_STACK_VADDR_BASE
    ensures Allocated(Grown(k, total)).space == Grown(k + 1, total)
  {
    hide Removed, Added, FirstFit;
    var s := Grown(k, total);
    TakesLowest(s.free[0], total);
    GrowsAbove(s.used[0], total);
    assert s.used[0].End() == s.free[0].start;
  }

  lemma GrowsFirst(total: nat)
    requires 0 < total
    ensures Allocated(Boot(total)) == Reply(true, USER_VADDR_START, Grown(1, total))
  {
    hide Removed, Added, FirstFit;
    var all := Block(USER_VADDR_START, USER_STACK_VADDR_BASE - USER_VADDR_START);
    FirstEntry(all, total);
    TakesLowest(all, total);
    FirstEntry(Block(USER_VADDR_START, PG_SIZE), total);
  }

  /** One request, then the rest. */
  lemma Served(s: Space, q: Request, rest: seq<Request>)
    ensures ServeAll(s, [q] + rest) == ServeAll(Serve(s, q), rest)
    ensures AllAllowed(s, [q] + rest) <==> Allowed(s, q) && AllAllowed(Serve(s, q), rest)
  {
    hide Serve, Allowed;
    assert ([q] + rest)[1..] == rest;
  }

  lemma {:induction false} ServedThen(s: Space, qs: seq<Request>, rest: seq<Request>)
    ensures ServeAll(s, qs + rest) == ServeAll(ServeAll(s, qs), rest)
    ensures AllAllowed(s, qs + rest) <==> AllAllowed(s, qs) && AllAllowed(ServeAll(s, qs), rest)
    decreases |qs|
  {
    hide Serve, Allowed;
    if qs == [] {
      assert qs + rest == rest;
    } else {
      assert (qs + rest)[0] == qs[0] && (qs + rest)[1..] == qs[1..] + rest;
      ServedThen(Serve(s, qs[0]), qs[1..], rest);
    }
  }

  lemma NothingAsked(s: Space)
    ensures Leads(s, Allocates(0), s)
  {
  }

  lemma AllocatesIs(n: nat)
    requires n > 0
    ensures Allocates(n) == [Allocate] + Allocates(n - 1)
  {
  }

  lemma AllocateServed(s: Space)
    ensures Serve(s, Allocate) == Allocated(s).space && Allowed(s, Allocate)
  {
    hide Allocated;
  }

  /** n requests lead from s to t, all of them allowed. */
  ghost predicate Leads(s: Space, qs: seq<Request>, t: Space) {
    AllAllowed(s, qs) && ServeAll(s, qs) == t
  }

  lemma OneMoreAllocated(s: Space, s1: Space, t: Space, n: nat)
    requires n > 0 && Allocated(s).space == s1 && Leads(s1, Allocates(n - 1), t)
    ensures Leads(s, Allocates(n), t)
  {
    hide Allocated, ServeAll, AllAllowed, Allocates, Serve, Allowed;
    AllocateServed(s);
    AllocatesIs(n);
    Served(s, Allocate, Allocates(n - 1));
  }

  lemma {:induction false} GrowsTo(k: nat, m: nat, total: nat)
    requires 1 <= k <= m && PageAt(m) < USER_STACK_VADDR_BASE
    ensures PageAt(k) < USER_STACK_VADDR_BASE && Leads(Grown(k, total), Allocates(m - k), Grown(m, total))
    decreases m - k
  {
    hide PageAt, Allocated, Grown, Leads, Allocates;
    PagesInOrder(k, m);
    if k == m {
      NothingAsked(Grown(k, total));
    } else {
      PagesInOrder(k + 1, m);
      GrowsByOne(k, total);
      GrowsTo(k + 1, m, total);
      OneMoreAllocated(Grown(k, total), Grown(k + 1, total), Grown(m, total), m - k);
    }
  }

  /** After m frees: both tables have m + 1 entries, and the last used block starts at page 2m. */
  ghost predicate Alternating(s: Space, m: nat, n: nat, total: nat) {
    && Partition(s) && s.freeTotal == total && s.usedTotal == total
    && |s.free| == |s.used| == m + 1 && 2 * m < n
    && s.used[m].start == PageAt(2 * m) && s.used[m].End() == PageAt(n)
  }

  lemma InLast(s: Space, m: nat, n: nat, total: nat, a: int)
    requires Alternating(s, m, n, total) && PageAt(2 * m) <= a < PageAt(n)
    ensures Covers(s.used, a) && !Covers(s.free, a)
  {
    assert In(s.used[m], a);
  }

  lemma InLastAll(s: Space, m: nat, n: nat, total: nat, v: Word)
    requires Alternating(s, m, n, total) && PageAt(2 * m) <= v && v + PG_SIZE <= PageAt(n)
    ensures CoversAll(s.used, v, PG_SIZE)
  {
    forall a | v <= a < v + PG_SIZE
      ensures Covers(s.used, a)
    {
      InLast(s, m, n, total, a);
    }
  }

  /** The free table has no block that ends or starts at the borders of a page inside the last used block. */
  lemma NoFreeNeighbour(s: Space, m: nat, n: nat, total: nat, v: Word)
    requires Alternating(s, m, n, total) && PageAt(2 * m) < v && v + PG_SIZE < PageAt(n)
    ensures !Touches(s.free, v, PG_SIZE)
  {
    InLast(s, m, n, total, v - 1);
    InLast(s, m, n, total, v + PG_SIZE);
    forall i | 0 <= i < |s.free|
      ensures s.free[i].End() != v && s.free[i].start != v + PG_SIZE
    {
      assert In(s.free[i], s.free[i].End() - 1) && Covers(s.free, s.free[i].End() - 1);
      assert In(s.free[i], s.free[i].start) && Covers(s.free, s.free[i].start);
    }
  }

  lemma IsInterior(s: Space, m: nat, n: nat, total: nat, v: Word)
    requires Alternating(s, m, n, total) && PageAt(2 * m) < v && v + PG_SIZE < PageAt(n)
    ensures Interior(s.used, v, PG_SIZE)
  {
    assert s.used[m].start < v && v + PG_SIZE < s.used[m].End();
  }

  /** Splitting the last used block. */
  lemma SplitsLast(u: seq<Block>, total: nat, v: Word)
    requires WellFormed(u) && u != [] && |u| < total
    requires u[|u| - 1].start < v && v + PG_SIZE < u[|u| - 1].End()
    ensures var r := Removed(u, total, v, PG_SIZE).blocks;
            && |r| == |u| + 1
            && r[|u|].start == v + PG_SIZE && r[|u|].End() == u[|u| - 1].End()
  {
    hide Removed, FirstMatch, Inserted, Cut;
    var m := |u| - 1;
    assert Holds(u[m], v, PG_SIZE);
    FoundHolds(u, v, PG_SIZE);
    assert Contained(u, v, PG_SIZE);
    RemovedExactly(u, total, v, PG_SIZE);
    assert FirstMatch(u, v, PG_SIZE) == m;
    var left, right := Block(u[m].start, v - u[m].start), Block(v + PG_SIZE, u[m].End() - (v + PG_SIZE));
    InsertedAt(u[m := left], m + 1, right);
  }

  lemma GainsEntry(f: seq<Block>, total: nat, v: Word)
    requires WellFormed(f) && v + PG_SIZE < TWO_64 && |f| < total && !Touches(f, v, PG_SIZE)
    ensures |Added(f, total, v, PG_SIZE).blocks| == |f| + 1
  {
    hide Added, Place, Inserted, Cut, WellFormed;
    AddedExactly(f, total, v, PG_SIZE);
    var i := Place(f, v);
    assert !Left(f, i, v) && !Right(f, i, v, PG_SIZE);
    InsertedAt(f, i, Block(v, PG_SIZE));
  }

  lemma FreesOne(s: Space, m: nat, n: nat, total: nat)
    requires Alternating(s, m, n, total) && 2 * m + 3 <= n && m + 1 < total && PageAt(n) < TWO_64
    ensures var v := PageAt(2 * m + 1);
            Allowed(s, Free(v)) && Alternating(Serve(s, Free(v)), m + 1, n, total)
  {
    hide PageAt, Interior, Touches, Partition, Removed, Added, CoversAll, Aligned, Moved, BothRefused, WellFormed;
    var v := PageAt(2 * m + 1);
    PagesAligned(2 * m + 1);
    NextPage(2 * m);
    NextPage(2 * m + 1);
    PagesInOrder(2 * m + 2, n);
    PagesInOrder(2 * m, 2 * m + 1);
    InLastAll(s, m, n, total, v);
    NoFreeNeighbour(s, m, n, total, v);
    FreeingAnyAddress(s, v);
    TablesWellFormed(s);
    SplitsLast(s.used, total, v);
    GainsEntry(s.free, total, v);
  }

  lemma TablesWellFormed(s: Space)
    requires Partition(s)
    ensures WellFormed(s.used) && WellFormed(s.free)
  {
  }

  lemma PagesAligned(k: nat)
    ensures Aligned(PageAt(k))
  {
  }

  lemma FreesNone(s: Space, m: nat, n: nat)
    requires m >= n
    ensures Frees(m, n) == [] && ServeAll(s, []) == s && AllAllowed(s, [])
  {
  }

  lemma FreesIs(m: nat, n: nat)
    requires m < n && PageAt(m) < TWO_64
    ensures Frees(m, n) == [Free(PageAt(m))] + Frees(m + 2, n)
  {
    hide PageAt;
  }

  lemma {:induction false} FreesAll(s: Space, m: nat, n: nat, total: nat)
    requires Alternating(s, m, n, total) && m < total && n == 2 * total + 1 && PageAt(n) < TWO_64
    ensures var qs := Frees(2 * m + 1, 2 * total - 1);
            AllAllowed(s, qs) && Alternating(ServeAll(s, qs), total - 1, n, total)
    decreases total - m
  {
    hide PageAt, Alternating, Serve, Allowed, ServeAll, AllAllowed, Frees;
    if m + 1 == total {
      FreesNone(s, 2 * m + 1, 2 * total - 1);
    } else {
      FreesOne(s, m, n, total);
      var v := PageAt(2 * m + 1);
      PagesInOrder(2 * m + 1, n);
      FreesIs(2 * m + 1, 2 * total - 1);
      Served(s, Free(v), Frees(2 * m + 3, 2 * total - 1));
      FreesAll(Serve(s, Free(v)), m + 1, n, total);
    }
  }

  lemma GrownAlternates(n: nat, total: nat)
    requires 1 <= n && PageAt(n) < USER_STACK_VADDR_BASE && Partition(Grown(n, total))
    ensures Alternating(Grown(n, total), 0, n, total)
  {
    hide Partition;
  }

  /** 2 * total + 1 pages are allocated, and every other one of them is freed, total - 1 in all. */
  function IntoFullTables(total: nat): seq<Request>
    requires 0 < total
  {
    Allocates(2 * total + 1) + Frees(1, 2 * total - 1)
  }

  /**
   For every capacity that the user range can fill, 1024 among them: a run of requests that are all served rightly
   leads to a page in use that cannot move back: both edits are refused, which the code does not notice.
   */
  lemma NoRoomExample(total: nat)
    requires 0 < total && PageAt(2 * total + 1) < USER_STACK_VADDR_BASE
    ensures var s, v := ServeAll(Boot(total), IntoFullTables(total)), PageAt(2 * total - 1);
            && AllAllowed(Boot(total), IntoFullTables(total)) && Partition(s)
            && v < TWO_64 && Aligned(v) && CoversAll(s.used, v, PG_SIZE) && !RoomToFree(s, v)
            && Freed(s, v) == s
  {
    hide PageAt, Allocated, Grown, Boot, Allocates, Frees, Partition, ServeAll, AllAllowed, Alternating, CoversAll,
        RoomToFree;
    var n := 2 * total + 1;
    PagesInOrder(1, n);
    GrowsFirst(total);
    GrowsTo(1, n, total);
    OneMoreAllocated(Boot(total), Grown(1, total), Grown(n, total), n);
    TablesAlwaysPartition(total, Allocates(n));
    GrownAlternates(n, total);
    FreesAll(Grown(n, total), 0, n, total);
    ServedThen(Boot(total), Allocates(n), Frees(1, 2 * total - 1));
    PagesInOrder(2 * total - 1, n);
    NoRoomAtEnd(ServeAll(Boot(total), IntoFullTables(total)), n, total);
  }

  lemma NoRoomAtEnd(s: Space, n: nat, total: nat)
    requires 0 < total && n == 2 * total + 1 && Alternating(s, total - 1, n, total) && PageAt(n) < USER_STACK_VADDR_BASE
    ensures var v := PageAt(2 * total - 1);
            Partition(s) && Aligned(v) && CoversAll(s.used, v, PG_SIZE) && !RoomToFree(s, v) && Freed(s, v) == s
  {
    hide PageAt, Removed, Added, RemovalRefused, AdditionRefused, CoversAll, Aligned, Partition;
    var v := PageAt(2 * total - 1);
    PagesAligned(2 * total - 1);
    NextPage(2 * total - 2);
    NextPage(2 * total - 1);
    NextPage(2 * total);
    PagesInOrder(0, 2 * total - 2);
    InLastAll(s, total - 1, n, total, v);
    IsInterior(s, total - 1, n, total, v);
    NoFreeNeighbour(s, total - 1, n, total, v);
    OtherInUse(s, v);
    RefusedStays(s.used, total, v, PG_SIZE);
    RefusedStays(s.free, total, v, PG_SIZE);
    RemoveIsDifference(s.used, total, v, PG_SIZE);
    AddIsUnion(s.free, total, v, PG_SIZE);
    hide WellFormed, Covers, Disjoint, Touches, Contained, Interior;
    BothRefusedStays(s, v);
  }

  /** The capacity that every process gets. */
  const TOTAL_BLOCKS: nat := 1024

  lemma NoRoomForProcesses()
    ensures exists qs, v: Word ::
              && AllAllowed(Boot(TOTAL_BLOCKS), qs)
              && var s := ServeAll(Boot(TOTAL_BLOCKS), qs); CoversAll(s.used, v, PG_SIZE) && !RoomToFree(s, v)
  {
    hide AllAllowed, ServeAll, Boot, CoversAll, RoomToFree;
    NoRoomExample(TOTAL_BLOCKS);
  }

  // ---------------------------------------------------------------- addresses not in use

  /**
   With room in the free table, freeing a page that is not in use destroys the tables: freed twice, outside, or
   wrapping.
   */
  lemma NotInUseBreaks(s: Space, v: Word)
    requires Partition(s) && |s.free| < s.freeTotal
    requires v + PG_SIZE >= TWO_64 || !CoversAll(s.used, v, PG_SIZE)
    ensures !Partition(Freed(s, v))
  {
    hide Removed, Added, Partition, Freed, CoversAll;
    FreeingAnyAddress(s, v);
  }

  lemma FirstPage(total: nat)
    requires 1 < total
    ensures Partition(Grown(1, total)) && GoesBack(Grown(1, total), USER_VADDR_START)
  {
    hide Grown, Allocated, Boot, Partition, Freed, CoversAll, GoesBack;
    GrowsFirst(total);
    BootIsPartition(total);
    AllocateServed(Boot(total));
    ServedPartition(Boot(total), Allocate);
    FirstGoesBack(total);
  }

  /** The first page, allocated and freed twice. */
  lemma FreedTwiceExample(total: nat)
    requires 1 < total
    ensures var v := USER_VADDR_START;
            var s := ServeAll(Boot(total), [Allocate, Free(v)]);
            AllAllowed(Boot(total), [Allocate, Free(v)]) && Partition(s) && !Partition(Freed(s, v))
  {
    var v := USER_VADDR_START;
    hide Allocated, Boot, Partition, AllAllowed, ServeAll, Removed, Added, Freed, BothRefused, CoversAll;
    GrowsFirst(total);
    BootIsPartition(total);
    AllocateServed(Boot(total));
    Served(Boot(total), Allocate, []);
    NothingAsked(Grown(1, total));
    Served(Grown(1, total), Free(v), []);
    NothingAsked(Freed(Grown(1, total), v));
    Served(Boot(total), Allocate, [Free(v)]);
    assert [Allocate] + [Free(v)] == [Allocate, Free(v)] && [Free(v)] + [] == [Free(v)];
    ServedPartition(Boot(total), Allocate);
    hide Grown;
    FirstGoesBack(total);
    FreeingAnyAddress(Grown(1, total), v);
    NotInUseBreaks(Freed(Grown(1, total), v), v);
  }

  lemma FirstGoesBack(total: nat)
    requires 1 < total && Partition(Grown(1, total))
    ensures var s, v := Grown(1, total), USER_VADDR_START;
            && GoesBack(s, v) && |Freed(s, v).free| < total && Freed(s, v).freeTotal == total
            && !CoversAll(Freed(s, v).used, v, PG_SIZE)
  {
    hide Added, Removed, Partition;
    var s, v := Grown(1, total), USER_VADDR_START;
    var u, f := s.used, s.free;
    assert u == [Block(v, PG_SIZE)] && f == [Block(v + PG_SIZE, USER_STACK_VADDR_BASE - v - PG_SIZE)];
    forall a | v <= a < v + PG_SIZE
      ensures Covers(u, a)
    {
      assert In(u[0], a);
    }
    assert Touches(f, v, PG_SIZE) by { assert f[0].start == v + PG_SIZE; }
    RemovesOnly(Block(v, PG_SIZE), total);
    JoinsBelow(f[0], total, v);
  }

  lemma RemovesOnly(b: Block, total: nat)
    requires 0 < b.size && b.End() < TWO_64
    ensures Removed([b], total, b.start, b.size).blocks == []
    ensures !CoversAll([], b.start, b.size) && !Interior([b], b.start, b.size)
  {
    hide Removed, FirstMatch, Cut, Inserted;
    OneBlock(b);
    RemovedExactly([b], total, b.start, b.size);
    WrapSmall(b.End());
    assert Matches([b][0], b.start, b.size);
    assert FirstMatch([b], b.start, b.size) == 0;
    assert Cut([b], 0) == [] by { CutAt([b], 0); }
    assert !Covers([], b.start);
  }

  lemma JoinsBelow(b: Block, total: nat, v: Word)
    requires 0 < b.size && b.End() < TWO_64 && b.start == v + PG_SIZE
    ensures |Added([b], total, v, PG_SIZE).blocks| == 1
  {
    hide Added, Place, Cut, Inserted;
    OneBlock(b);
    AddedExactly([b], total, v, PG_SIZE);
    assert Place([b], v) == 0;
  }
}
