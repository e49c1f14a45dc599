/** What every sequence of kmalloc and kfree keeps. */
module AllocatorSafety {
  import opened Words
  import opened Arithmetic
  import opened Sequences
  import opened Blocks
  import opened Constants
  import opened Options
  import opened Allocator

  /** b is one of the blocks of a page of group g. */
  ghost predicate IsBlock(caches: map<nat, Cache>, g: nat, b: nat) {
    var c := CacheOf(b);
    && c in caches && caches[c].g == g && 0 <= IndexIn(c, g, b) < caches[c].n
    && b == BlockAt(c, g, IndexIn(c, g, b))
  }

  /** How many of the blocks in s lie in page c. */
  function CountIn(s: seq<nat>, c: nat): nat {
    if s == [] then 0 else CountIn(s[..|s| - 1], c) + if CacheOf(s[|s| - 1]) == c then 1 else 0
  }

  ghost predicate CacheOk(h: Heap, c: nat)
    requires Shaped(h) && c in h.caches
  {
    var k := h.caches[c];
    c % PG_SIZE == 0 && c < TWO_64 && k.g < GROUPS && k.n == BlockCount(k.g) && k.cnt == CountIn(h.free[k.g], c)
  }

  ghost predicate ListOk(h: Heap, g: nat)
    requires Shaped(h) && g < GROUPS
  {
    Distinct(h.free[g]) && h.total[g] == |h.free[g]| && forall b :: b in h.free[g] ==> IsBlock(h.caches, g, b)
  }

  /** A live block is a block, and on no free list. */
  ghost predicate LiveOk(h: Heap, b: nat)
    requires Shaped(h)
  {
    && CacheOf(b) in h.caches
    && var g := h.caches[CacheOf(b)].g;
       g < GROUPS && IsBlock(h.caches, g, b) && b !in h.free[g]
  }

  /** Every block of page c is free or live. */
  ghost predicate Complete(h: Heap, live: set<nat>, c: nat)
    requires Shaped(h) && c in h.caches && h.caches[c].g < GROUPS
  {
    forall idx {:trigger BlockAt(c, h.caches[c].g, idx)} :: 0 <= idx < h.caches[c].n ==>
      BlockAt(c, h.caches[c].g, idx) in h.free[h.caches[c].g] || BlockAt(c, h.caches[c].g, idx) in live
  }

  /** The heap and the blocks handed out and not yet freed. */
  ghost predicate Inv(h: Heap, live: set<nat>) {
    && Shaped(h) && (forall c :: c in h.caches ==> CacheOk(h, c) && Complete(h, live, c))
    && (forall g :: 0 <= g < GROUPS ==> ListOk(h, g)) && (forall b :: b in live ==> LiveOk(h, b))
  }

  // ---------------------------------------------------------------- counting

  lemma {:induction false} CountSplit(s: seq<nat>, t: seq<nat>, c: nat)
    ensures CountIn(s + t, c) == CountIn(s, c) + CountIn(t, c)
  {
    if t == [] {
      assert s + t == s;
    } else {
      assert (s + t)[..|s + t| - 1] == s + t[..|t| - 1];
      CountSplit(s, t[..|t| - 1], c);
    }
  }

  lemma CountOne(b: nat, c: nat)
    ensures CountIn([b], c) == if CacheOf(b) == c then 1 else 0
  {
    assert [b][..0] == [];
  }

  lemma CountWithout(s: seq<nat>, i: nat, c: nat)
    requires i < |s|
    ensures CountIn(s[..i] + s[i + 1..], c) == CountIn(s, c) - if CacheOf(s[i]) == c then 1 else 0
  {
    assert s == s[..i] + [s[i]] + s[i + 1..];
    CountSplit(s[..i], [s[i]], c);
    CountSplit(s[..i] + [s[i]], s[i + 1..], c);
    CountSplit(s[..i], s[i + 1..], c);
    CountOne(s[i], c);
  }

  /** The indices of those blocks of s that lie in page c. */
  function Indices(s: seq<nat>, c: nat, g: nat): (r: seq<int>)
    ensures |r| == CountIn(s, c)
    ensures forall x :: x in r ==> exists k :: 0 <= k < |s| && CacheOf(s[k]) == c && IndexIn(c, g, s[k]) == x
  {
    if s == [] then []
    else
      var rest := Indices(s[..|s| - 1], c, g);
      if CacheOf(s[|s| - 1]) == c then rest + [IndexIn(c, g, s[|s| - 1])] else rest
  }

  lemma {:induction false} IndicesHave(s: seq<nat>, c: nat, g: nat, k: nat)
    requires k < |s| && CacheOf(s[k]) == c
    ensures IndexIn(c, g, s[k]) in Indices(s, c, g)
  {
    if k < |s| - 1 {
      IndicesHave(s[..|s| - 1], c, g, k);
    }
  }

  lemma {:induction false} IndicesDistinct(s: seq<nat>, c: nat, g: nat)
    requires Distinct(s)
    requires forall k :: 0 <= k < |s| && CacheOf(s[k]) == c ==>
               0 <= IndexIn(c, g, s[k]) && s[k] == BlockAt(c, g, IndexIn(c, g, s[k]))
    ensures Distinct(Indices(s, c, g))
  {
    hide BlockAt, IndexIn, CacheOf;
    if s != [] {
      var last, rest := s[|s| - 1], Indices(s[..|s| - 1], c, g);
      IndicesDistinct(s[..|s| - 1], c, g);
      assert CacheOf(last) == c ==> IndexIn(c, g, last) !in rest;
    }
  }

  /** The indices of a page's free blocks are distinct numbers below n. */
  lemma FreeIndices(h: Heap, c: nat)
    requires Shaped(h) && c in h.caches && CacheOk(h, c) && ListOk(h, h.caches[c].g)
    ensures var k := h.caches[c]; var r := Indices(h.free[k.g], c, k.g);
            Distinct(r) && |r| == k.cnt && forall x :: x in r ==> 0 <= x < k.n && BlockAt(c, k.g, x) in h.free[k.g]
  {
    hide BlockAt, IndexIn, CacheOf;
    var k := h.caches[c];
    var s := h.free[k.g];
    forall j | 0 <= j < |s|
      ensures IsBlock(h.caches, k.g, s[j])
    {
      assert s[j] in s;
    }
    IndicesDistinct(s, c, k.g);
    forall x | x in Indices(s, c, k.g)
      ensures 0 <= x < k.n && BlockAt(c, k.g, x) in s
    {
      var j :| 0 <= j < |s| && CacheOf(s[j]) == c && IndexIn(c, k.g, s[j]) == x;
      assert IsBlock(h.caches, k.g, s[j]);
    }
  }

  /** cnt is at most the number of blocks, and less while one is live. */
  lemma CountBounds(h: Heap, live: set<nat>, c: nat)
    requires Inv(h, live) && c in h.caches
    ensures 0 <= h.caches[c].cnt <= h.caches[c].n
    ensures forall b :: b in live && CacheOf(b) == c ==> h.caches[c].cnt < h.caches[c].n
  {
    var k := h.caches[c];
    assert CacheOk(h, c) && ListOk(h, k.g);
    FreeIndices(h, c);
    CountFillsPage(k.g);
    var r := Indices(h.free[k.g], c, k.g);
    hide BlockAt, IndexIn, CacheOf, BlockCount, BlockSize;
    Pigeonhole(r, k.n);
    forall b | b in live && CacheOf(b) == c
      ensures k.cnt < k.n
    {
      assert LiveOk(h, b);
      var x := IndexIn(c, k.g, b);
      assert x !in r;
      Pigeonhole(r + [x], k.n);
    }
  }

  /** With no block live, all are free. */
  lemma CountFull(h: Heap, live: set<nat>, c: nat)
    requires Inv(h, live) && c in h.caches && forall b :: b in live ==> CacheOf(b) != c
    ensures h.caches[c].cnt == h.caches[c].n
  {
    var k := h.caches[c];
    CountBounds(h, live, c);
    assert CacheOk(h, c) && ListOk(h, k.g) && Complete(h, live, c);
    FreeIndices(h, c);
    CountFillsPage(k.g);
    var r := Indices(h.free[k.g], c, k.g);
    forall idx | 0 <= idx < k.n
      ensures idx in r
    {
      BlockRoundTrip(c, k.g, idx);
      var b := BlockAt(c, k.g, idx);
      assert b in h.free[k.g];
      var j :| 0 <= j < |h.free[k.g]| && h.free[k.g][j] == b;
      IndicesHave(h.free[k.g], c, k.g, j);
    }
    Covering(r, k.n);
  }

  // ---------------------------------------------------------------- kmalloc

  lemma InitInv()
    ensures Inv(Init(), {})
  {
  }

  /** The blocks of a new page. */
  lemma NewBlocks(c: nat, g: nat, n: nat)
    requires g < GROUPS && n <= BlockCount(g) && c % PG_SIZE == 0
    ensures var s := BlocksOf(c, g, n);
            && Distinct(s)
            && forall b :: b in s ==>
                 CacheOf(b) == c && 0 <= IndexIn(c, g, b) < n && b == BlockAt(c, g, IndexIn(c, g, b))
  {
    var s := BlocksOf(c, g, n);
    forall k | 0 <= k < n
      ensures CacheOf(s[k]) == c && IndexIn(c, g, s[k]) == k
    {
      BlockRoundTrip(c, g, k);
    }
    hide BlockAt, IndexIn, CacheOf, BlockCount;
  }

  lemma {:induction false} CountAll(s: seq<nat>, c: nat, c': nat)
    requires forall b :: b in s ==> CacheOf(b) == c
    ensures CountIn(s, c') == if c' == c then |s| else 0
  {
    hide CacheOf;
    if s != [] {
      CountAll(s[..|s| - 1], c, c');
    }
  }

  lemma NewCounts(c: nat, g: nat, c': nat)
    requires g < GROUPS && BlockCount(g) >= 0 && c % PG_SIZE == 0
    ensures CountIn(BlocksOf(c, g, BlockCount(g)), c') == if c' == c then BlockCount(g) else 0
  {
    NewBlocks(c, g, BlockCount(g));
    hide BlockAt, IndexIn, CacheOf, BlockCount;
    CountAll(BlocksOf(c, g, BlockCount(g)), c, c');
  }

  lemma NewPageOk(h: Heap, live: set<nat>, g: nat, c: nat)
    requires Shaped(h) && g < GROUPS && h.free[g] == [] && c % PG_SIZE == 0 && c < TWO_64 && BlockCount(g) >= 7
    ensures var h' := Refilled(h, g, c); CacheOk(h', c) && Complete(h', live, c)
  {
    NewCounts(c, g, c);
    hide BlockAt, IndexIn, CacheOf, BlockCount, CountIn;
    var s := BlocksOf(c, g, BlockCount(g));
    assert h.free[g] + s == s;
    forall idx {:trigger BlockAt(c, g, idx)} | 0 <= idx < BlockCount(g)
      ensures BlockAt(c, g, idx) in s
    {
      assert s[idx] == BlockAt(c, g, idx);
    }
    hide BlocksOf;
  }

  lemma OldPageOk(h: Heap, live: set<nat>, g: nat, c: nat, c': nat)
    requires Shaped(h) && g < GROUPS && h.free[g] == [] && c % PG_SIZE == 0 && BlockCount(g) >= 7
    requires c' in h.caches && CacheOk(h, c') && Complete(h, live, c') && c' != c
    ensures var h' := Refilled(h, g, c); CacheOk(h', c') && Complete(h', live, c')
  {
    NewCounts(c, g, c');
    hide BlockAt, IndexIn, CacheOf, BlockCount, BlocksOf;
    assert h.free[g] + BlocksOf(c, g, BlockCount(g)) == BlocksOf(c, g, BlockCount(g));
  }

  lemma NewListOk(h: Heap, g: nat, c: nat)
    requires Shaped(h) && g < GROUPS && h.free[g] == [] && c % PG_SIZE == 0 && ListOk(h, g) && BlockCount(g) >= 7
    ensures ListOk(Refilled(h, g, c), g)
  {
    NewBlocks(c, g, BlockCount(g));
    hide BlockAt, IndexIn, CacheOf, BlockCount, BlocksOf, CountIn;
    var s := BlocksOf(c, g, BlockCount(g));
    assert h.free[g] + s == s;
  }

  lemma OldListOk(h: Heap, g: nat, c: nat, g': nat)
    requires Shaped(h) && g < GROUPS && g' < GROUPS && c !in h.caches && ListOk(h, g') && BlockCount(g) >= 7 && g' != g
    ensures ListOk(Refilled(h, g, c), g')
  {
    hide BlockAt, IndexIn, CacheOf, BlockCount, BlocksOf;
    OldBlocks(h, Refilled(h, g, c), g');
  }

  lemma RefillKeeps(h: Heap, live: set<nat>, g: nat, c: nat)
    requires Inv(h, live) && g < GROUPS && h.free[g] == [] && c !in h.caches && c % PG_SIZE == 0 && c < TWO_64
    ensures BlockCount(g) >= 7 && Inv(Refilled(h, g, c), live) && Refilled(h, g, c).free[g] != []
  {
    CountFillsPage(g);
    var h' := Refilled(h, g, c);
    assert ListOk(h, g);
    forall c' | c' in h'.caches
      ensures CacheOk(h', c') && Complete(h', live, c')
    {
      if c' == c {
        NewPageOk(h, live, g, c);
      } else {
        assert CacheOk(h, c') && Complete(h, live, c');
        OldPageOk(h, live, g, c, c');
      }
    }
    forall g' | 0 <= g' < GROUPS
      ensures ListOk(h', g')
    {
      assert ListOk(h, g');
      if g' == g {
        NewListOk(h, g, c);
      } else {
        OldListOk(h, g, c, g');
      }
    }
    hide BlockAt, IndexIn, CacheOf, BlockCount, BlocksOf;
    forall b | b in live
      ensures LiveOk(h', b)
    {
      LiveIsOld(h, live, b, g);
      NotNew(h, g, c, b);
    }
  }

  lemma LiveIsOld(h: Heap, live: set<nat>, b: nat, g: nat)
    requires Inv(h, live) && b in live
    ensures LiveOk(h, b)
  {
  }

  lemma NotNew(h: Heap, g: nat, c: nat, b: nat)
    requires Shaped(h) && g < GROUPS && h.free[g] == [] && LiveOk(h, b) && c !in h.caches && BlockCount(g) >= 7 &&
             c % PG_SIZE == 0
    ensures LiveOk(Refilled(h, g, c), b)
  {
    NewBlocks(c, g, BlockCount(g));
    hide BlockAt, IndexIn, CacheOf, BlockCount, BlocksOf;
  }

  lemma OldBlocks(h: Heap, h': Heap, g: nat)
    requires Shaped(h) && g < GROUPS && ListOk(h, g)
    requires forall c :: c in h.caches ==>
               c in h'.caches && h'.caches[c].g == h.caches[c].g && h'.caches[c].n == h.caches[c].n
    ensures forall b :: b in h.free[g] ==> IsBlock(h'.caches, g, b)
  {
    forall b | b in h.free[g]
      ensures IsBlock(h'.caches, g, b)
    {
      assert IsBlock(h.caches, g, b);
    }
  }

  /** Taking any block off a list. */
  lemma TakeKeeps(h: Heap, live: set<nat>, g: nat, i: nat)
    requires Inv(h, live) && g < GROUPS && i < |h.free[g]|
    ensures var b := h.free[g][i];
            CacheOf(b) in h.caches && b !in live && Inv(Taken(h, g, i), live + {b})
  {
    hide BlockAt, IndexIn, CacheOf, BlockCount;
    var s, b := h.free[g], h.free[g][i];
    assert ListOk(h, g) && b in s;
    assert IsBlock(h.caches, g, b);
    assert b in live ==> LiveOk(h, b);
    var h', c := Taken(h, g, i), CacheOf(b);
    DistinctWithout(s, i);
    forall c' | c' in h'.caches
      ensures CacheOk(h', c') && Complete(h', live + {b}, c')
    {
      assert CacheOk(h, c') && Complete(h, live, c');
      CountWithout(s, i, c');
    }
    forall g' | 0 <= g' < GROUPS
      ensures ListOk(h', g')
    {
      assert ListOk(h, g');
      OldBlocks(h, h', g');
    }
    forall b' | b' in live + {b}
      ensures LiveOk(h', b')
    {
      assert b' != b ==> LiveOk(h, b');
    }
  }

  // ---------------------------------------------------------------- kfree

  lemma ReturnComplete(h: Heap, live: set<nat>, b: nat, c: nat)
    requires Shaped(h) && LiveOk(h, b) && c in h.caches && CacheOk(h, c) && Complete(h, live, c)
    ensures Complete(Returned(h, b), live - {b}, c)
  {
    var k := h.caches[c];
    forall idx {:trigger BlockAt(c, k.g, idx)} | 0 <= idx < k.n
      ensures CacheOf(BlockAt(c, k.g, idx)) == c
    {
      BlockRoundTrip(c, k.g, idx);
    }
    hide BlockAt, IndexIn, CacheOf, BlockCount;
  }

  lemma ReturnCacheOk(h: Heap, b: nat, c: nat)
    requires Shaped(h) && LiveOk(h, b) && c in h.caches && CacheOk(h, c)
    ensures CacheOk(Returned(h, b), c)
  {
    hide BlockAt, IndexIn, CacheOf, BlockCount;
    CountSplit(h.free[h.caches[CacheOf(b)].g], [b], c);
    CountOne(b, c);
  }

  lemma ReturnListOk(h: Heap, b: nat, g: nat)
    requires Shaped(h) && LiveOk(h, b) && g < GROUPS && ListOk(h, g)
    ensures ListOk(Returned(h, b), g)
  {
    hide BlockAt, IndexIn, CacheOf, BlockCount;
    OldBlocks(h, Returned(h, b), g);
  }

  lemma ReturnKeeps(h: Heap, live: set<nat>, b: nat)
    requires Inv(h, live) && b in live
    ensures CacheOf(b) in h.caches && h.caches[CacheOf(b)].g < GROUPS && Inv(Returned(h, b), live - {b})
  {
    hide BlockAt, IndexIn, CacheOf, BlockCount, CountIn;
    assert LiveOk(h, b);
    var h' := Returned(h, b);
    forall c' | c' in h'.caches
      ensures CacheOk(h', c') && Complete(h', live - {b}, c')
    {
      assert CacheOk(h, c') && Complete(h, live, c');
      ReturnCacheOk(h, b, c');
      ReturnComplete(h, live, b, c');
    }
    forall g' | 0 <= g' < GROUPS
      ensures ListOk(h', g')
    {
      assert ListOk(h, g');
      ReturnListOk(h, b, g');
    }
    forall b' | b' in live - {b}
      ensures LiveOk(h', b')
    {
      assert LiveOk(h, b');
    }
  }

  lemma WithoutLast(s: seq<nat>, c: nat, g: nat, k: nat)
    requires s != []
    ensures var rest, last := s[..|s| - 1], s[|s| - 1];
            && s == rest + [last]
            && Without(s, c, g, k) ==
               if CacheOf(last) == c && IndexIn(c, g, last) < k then Without(rest, c, g, k)
               else Without(rest, c, g, k) + [last]
  {
    var rest := s[..|s| - 1];
    assert Without(rest, c, g, k) + [] == Without(rest, c, g, k);
  }

  lemma {:induction false} WithoutHas(s: seq<nat>, c: nat, g: nat, k: nat, x: nat)
    ensures x in Without(s, c, g, k) <==> x in s && !(CacheOf(x) == c && IndexIn(c, g, x) < k)
  {
    if s != [] {
      WithoutLast(s, c, g, k);
      hide IndexIn, CacheOf, Without;
      WithoutHas(s[..|s| - 1], c, g, k, x);
      assert x in s <==> x in s[..|s| - 1] || x == s[|s| - 1];
    }
  }

  lemma {:induction false} WithoutDistinct(s: seq<nat>, c: nat, g: nat, k: nat)
    requires Distinct(s)
    ensures Distinct(Without(s, c, g, k))
  {
    if s != [] {
      WithoutLast(s, c, g, k);
      hide IndexIn, CacheOf, Without;
      WithoutDistinct(s[..|s| - 1], c, g, k);
      WithoutHas(s[..|s| - 1], c, g, k, s[|s| - 1]);
    }
  }

  lemma WithoutIs(s: seq<nat>, c: nat, g: nat, k: nat)
    ensures var r := Without(s, c, g, k);
            && (forall x :: x in r <==> x in s && !(CacheOf(x) == c && IndexIn(c, g, x) < k))
            && (Distinct(s) ==> Distinct(r))
  {
    hide IndexIn, CacheOf, Without;
    forall x
      ensures x in Without(s, c, g, k) <==> x in s && !(CacheOf(x) == c && IndexIn(c, g, x) < k)
    {
      WithoutHas(s, c, g, k, x);
    }
    if Distinct(s) {
      WithoutDistinct(s, c, g, k);
    }
  }

  lemma {:induction false} WithoutCounts(s: seq<nat>, c: nat, g: nat, k: nat, c': nat)
    requires forall x :: x in s && CacheOf(x) == c ==> IndexIn(c, g, x) < k
    ensures CountIn(Without(s, c, g, k), c') == if c' == c then 0 else CountIn(s, c')
    ensures |Without(s, c, g, k)| == |s| - CountIn(s, c)
  {
    if s != [] {
      var rest, last := s[..|s| - 1], s[|s| - 1];
      WithoutLast(s, c, g, k);
      hide IndexIn, CacheOf, Without;
      assert last in s;
      WithoutCounts(rest, c, g, k, c');
      CountSplit(Without(rest, c, g, k), [last], c');
      CountOne(last, c');
    }
  }

  lemma DropComplete(h: Heap, live: set<nat>, c: nat, c': nat)
    requires Shaped(h) && c in h.caches && h.caches[c].g < GROUPS && h.caches[c].n >= 0
    requires c' in h.caches && c' != c && CacheOk(h, c') && Complete(h, live, c')
    ensures var h' := Dropped(h, c); CacheOk(h, c') && Complete(h', live, c')
  {
    var k := h.caches[c];
    WithoutIs(h.free[k.g], c, k.g, k.n);
    forall idx {:trigger BlockAt(c', h.caches[c'].g, idx)} | 0 <= idx < h.caches[c'].n
      ensures CacheOf(BlockAt(c', h.caches[c'].g, idx)) == c'
    {
      BlockRoundTrip(c', h.caches[c'].g, idx);
    }
    hide BlockAt, IndexIn, CacheOf, BlockCount, Without;
  }

  lemma DropListOk(h: Heap, c: nat, g: nat)
    requires Shaped(h) && g < GROUPS && ListOk(h, g) && c in h.caches && CacheOk(h, c)
    requires h.caches[c].g == g ==> h.caches[c].cnt == h.caches[c].n >= 0
    ensures h.caches[c].n >= 0 && ListOk(Dropped(h, c), g)
  {
    var k := h.caches[c];
    CountFillsPage(k.g);
    hide BlockAt, IndexIn, CacheOf, BlockCount, BlockSize;
    var s, h' := h.free[g], Dropped(h, c);
    WithoutIs(h.free[k.g], c, k.g, k.n);
    if k.g == g {
      assert forall x :: x in s && CacheOf(x) == c ==> IsBlock(h.caches, g, x);
      WithoutCounts(s, c, g, k.n, c);
    }
    forall b | b in h'.free[g]
      ensures IsBlock(h'.caches, g, b)
    {
      assert IsBlock(h.caches, g, b);
    }
  }

  lemma DropCacheOk(h: Heap, c: nat, c': nat)
    requires Shaped(h) && c in h.caches && CacheOk(h, c) && ListOk(h, h.caches[c].g) && h.caches[c].n >= 0
    requires c' in h.caches && c' != c && CacheOk(h, c')
    ensures CacheOk(Dropped(h, c), c')
  {
    hide BlockAt, IndexIn, CacheOf, BlockCount;
    var k := h.caches[c];
    var s := h.free[k.g];
    assert forall x :: x in s && CacheOf(x) == c ==> IsBlock(h.caches, k.g, x);
    WithoutCounts(s, c, k.g, k.n, c');
  }

  /** When all blocks of a page are free the page can go, and nothing of it is left on the list. */
  lemma DropKeeps(h: Heap, live: set<nat>, c: nat)
    requires Inv(h, live) && c in h.caches && h.caches[c].cnt == h.caches[c].n
    ensures h.caches[c].g < GROUPS && h.caches[c].n >= 0 && Inv(Dropped(h, c), live)
    ensures forall b :: b in Dropped(h, c).free[h.caches[c].g] ==> CacheOf(b) != c
  {
    var k := h.caches[c];
    assert CacheOk(h, c) && ListOk(h, k.g);
    CountFillsPage(k.g);
    CountBounds(h, live, c);
    WithoutIs(h.free[k.g], c, k.g, k.n);
    hide BlockAt, IndexIn, CacheOf, BlockCount, BlockSize, Without;
    assert forall x :: x in h.free[k.g] && CacheOf(x) == c ==> IsBlock(h.caches, k.g, x);
    var h' := Dropped(h, c);
    forall c' | c' in h'.caches
      ensures CacheOk(h', c') && Complete(h', live, c')
    {
      assert CacheOk(h, c') && Complete(h, live, c');
      DropCacheOk(h, c, c');
      DropComplete(h, live, c, c');
    }
    forall g' | 0 <= g' < GROUPS
      ensures ListOk(h', g')
    {
      assert ListOk(h, g');
      DropListOk(h, c, g');
    }
    forall b | b in live
      ensures LiveOk(h', b)
    {
      assert LiveOk(h, b);
    }
  }

  /** A page goes back exactly when its last live block is freed. */
  lemma FreedKeeps(h: Heap, live: set<nat>, b: nat)
    requires Inv(h, live) && b in live
    ensures CacheOf(b) in h.caches && h.caches[CacheOf(b)].g < GROUPS && h.caches[CacheOf(b)].n >= 0
    ensures var h' := Freed(h, b);
            && Inv(h', live - {b})
            && (CacheOf(b) !in h'.caches <==> forall b' :: b' in live && b' != b ==> CacheOf(b') != CacheOf(b))
            && (CacheOf(b) !in h'.caches ==>
                forall g, b' :: 0 <= g < GROUPS && b' in h'.free[g] ==> CacheOf(b') != CacheOf(b))
  {
    var c := CacheOf(b);
    ReturnKeeps(h, live, b);
    var h1 := Returned(h, b);
    CountBounds(h1, live - {b}, c);
    hide BlockAt, IndexIn, CacheOf, BlockCount, Without;
    if h1.caches[c].cnt == h1.caches[c].n {
      DropKeeps(h1, live - {b}, c);
      NothingLeft(Freed(h, b), live - {b}, c);
    } else if forall b' :: b' in live - {b} ==> CacheOf(b') != c {
      CountFull(h1, live - {b}, c);
    }
  }

  /** Nothing of a page that is not in use is on any list. */
  lemma NothingLeft(h: Heap, live: set<nat>, c: nat)
    requires Inv(h, live) && c !in h.caches
    ensures forall g, b :: 0 <= g < GROUPS && b in h.free[g] ==> CacheOf(b) != c
  {
    forall g, b | 0 <= g < GROUPS && b in h.free[g]
      ensures CacheOf(b) != c
    {
      assert ListOk(h, g) && IsBlock(h.caches, g, b);
    }
  }

  // ---------------------------------------------------------------- what kmalloc promises

  /** The physical allocator hands out a whole page that is not in use. */
  ghost predicate GoodPage(h: Heap, page: Option<nat>) {
    page.Some? ==> page.value % PG_SIZE == 0 && page.value < TWO_64 && page.value !in h.caches
  }

  function LiveAfter(live: set<nat>, r: Outcome): set<nat> {
    if r.Got? then live + {r.b} else live
  }

  /** kmalloc keeps the invariant, and a block handed out was not live before. */
  lemma KmallocedKeeps(h: Heap, live: set<nat>, size: Word, alignment: Word, boundary: nat, page: Option<nat>)
    requires Inv(h, live) && GoodPage(h, page)
    ensures var (h', r) := Kmalloced(h, size, alignment, boundary, page);
            Inv(h', LiveAfter(live, r)) && (r.Got? ==> r.b !in live)
  {
    assert Shaped(h);
    hide Inv, Search, GroupFrom, BlockCount;
    var g, al := GroupFrom(size, 0), Widened(alignment, size);
    if size <= MAX_BLOCK {
      if h.free[g] == [] && page.Some? {
        RefillKeeps(h, live, g, page.value);
      }
      if h.free[g] != [] || page.Some? {
        var h1 := if h.free[g] == [] then Refilled(h, g, page.value) else h;
        var i := Search(h1.free[g], size, al, boundary);
        if i < |h1.free[g]| {
          TakeKeeps(h1, live, g, i);
        }
      }
    }
  }

  lemma {:induction false} GroupFits(size: nat, g: nat)
    requires g < GROUPS && size <= MAX_BLOCK
    ensures size <= BlockSize(GroupFrom(size, g))
    ensures forall g' :: g <= g' < GroupFrom(size, g) ==> BlockSize(g') < size
    decreases GROUPS - g
  {
    if g + 1 == GROUPS {
      SizesOfGroups();
    } else if size > BlockSize(g) {
      GroupFits(size, g + 1);
    }
  }

  /** A block of a group, aligned to its size, meets every constraint its size can satisfy. */
  lemma BlockMeets(b: nat, g: nat, size: nat, alignment: Word, boundary: nat)
    requires b > 0 && b % BlockSize(g) == 0 && 1 <= size <= BlockSize(g) && 1 <= alignment <= BlockSize(g)
    requires boundary % BlockSize(g) == 0
    ensures Meets(b, size, alignment, boundary)
  {
    WrapSmall(alignment - 1);
    SizeIsPower(g);
    MaskFindsNothing(b, alignment - 1, g + 6);
    if boundary != 0 {
      SameChunk(b, size, BlockSize(g), boundary);
    }
  }

  lemma SizeIsPower(g: nat)
    ensures BlockSize(g) == Pow2(g + 6)
  {
    if g > 0 {
      SizeIsPower(g - 1);
    } else {
      assert Pow2(3) == 8 && Pow2(6) == 8 * Pow2(3);
    }
  }

  lemma Distribute(j: int, q: int, m: int, s: int)
    ensures j * s - q * (m * s) == (j - q * m) * s && m * s - (j - q * m) * s == s * (m - (j - q * m))
  {
  }

  /** A multiple of s leaves, on division by a larger multiple of s, room for s more. */
  lemma RoomForOne(j: nat, m: nat, s: nat)
    requires s > 0 && m > 0
    ensures m * s > 0 && j * s % (m * s) + s <= m * s
  {
    Multiple(s, m);
    var boundary := m * s;
    var q, r := j * s / boundary, j * s % boundary;
    assert j * s == q * boundary + r;
    Distribute(j, q, m, s);
    Multiple(s, m - (j - q * m));
  }

  lemma RoomForBlock(b: nat, s: nat, boundary: nat)
    requires s > 0 && boundary > 0 && b % s == 0 && boundary % s == 0
    ensures b % boundary + s <= boundary
  {
    var j, m := b / s, boundary / s;
    RoomForOne(j, m, s);
    assert j * s == b && m * s == boundary;
  }

  lemma SameQuotient(b: nat, d: nat, n: nat)
    requires n > 0 && b % n + d < n
    ensures b / n == (b + d) / n
  {
    var q, r := b / n, b % n;
    assert b + d == q * n + (r + d);
    QuotientOf(q, r + d, n);
  }

  /** A block does not cross a boundary that is a multiple of its size. */
  lemma SameChunk(b: nat, size: nat, s: nat, boundary: nat)
    requires s > 0 && boundary > 0 && b % s == 0 && boundary % s == 0 && 1 <= size <= s
    ensures b / boundary == (b + size - 1) / boundary
  {
    RoomForBlock(b, s, boundary);
    SameQuotient(b, size - 1, boundary);
  }

  lemma FreeAligned(h: Heap, live: set<nat>, g: nat, b: nat)
    requires Inv(h, live) && g < GROUPS && b in h.free[g]
    ensures 0 < b < TWO_64 && b % BlockSize(g) == 0
  {
    assert ListOk(h, g) && IsBlock(h.caches, g, b);
    var c := CacheOf(b);
    assert CacheOk(h, c);
    BlockAligned(c, g, IndexIn(c, g, b));
    BlockInside(c, g, IndexIn(c, g, b));
    assert TWO_64 % PG_SIZE == 0;
  }

  /** The search stops at once. */
  lemma FirstIsTaken(s: seq<nat>, g: nat, size: Word, alignment: Word, boundary: nat)
    requires s != [] && s[0] > 0 && s[0] % BlockSize(g) == 0 && boundary % BlockSize(g) == 0
    requires size <= BlockSize(g) && alignment <= BlockSize(g) && (size > 0 || boundary == 0)
    ensures Search(s, size, Widened(alignment, size), boundary) == 0
  {
    var al := Widened(alignment, size);
    if !(al <= size && boundary == 0) {
      if size > 0 {
        BlockMeets(s[0], g, size, al, boundary);
      } else {
        WrapSmall(al - 1);
        SizeIsPower(g);
        MaskFindsNothing(s[0], al - 1, g + 6);
      }
    }
  }

  // ---------------------------------------------------------------- the exception: size zero

  lemma AllOnes()
    ensures Pow2(64) == TWO_64
  {
    assert Pow2(4) == 16 && Pow2(8) == 16 * Pow2(4) && Pow2(12) == 16 * Pow2(8) && Pow2(16) == 16 * Pow2(12);
    assert Pow2(20) == 16 * Pow2(16) && Pow2(24) == 16 * Pow2(20) && Pow2(28) == 16 * Pow2(24) &&
        Pow2(32) == 16 * Pow2(28);
    assert Pow2(36) == 16 * Pow2(32) && Pow2(40) == 16 * Pow2(36) && Pow2(44) == 16 * Pow2(40) &&
        Pow2(48) == 16 * Pow2(44);
    assert Pow2(52) == 16 * Pow2(48) && Pow2(56) == 16 * Pow2(52) && Pow2(60) == 16 * Pow2(56);
  }

  lemma OneLess(q: int, n: int)
    ensures (q - 1) * n == q * n - n
  {
  }

  lemma BeforeIsSameChunk(b: nat, n: nat)
    requires b > 0 && n > 0
    ensures b / n == (b - 1) / n <==> b % n != 0
  {
    var q, r := b / n, b % n;
    assert b == q * n + r;
    OneLess(q, n);
    if r == 0 {
      QuotientOf(q - 1, n - 1, n);
    } else {
      QuotientOf(q, r - 1, n);
    }
  }

  /**
   The tests of a block for size zero and a boundary: `addr / boundary == (addr + size - 1) / boundary` shuts out
   the boundary's multiples, and alignment 0 makes a mask of all ones, which shuts out every address.
   */
  lemma ZeroSizeMeets(b: nat, alignment: Word, boundary: nat)
    requires 0 < b < TWO_64 && b % MIN_BLOCK == 0 && alignment <= MIN_BLOCK && boundary > 0
    ensures Meets(b, 0, alignment, boundary) <==> alignment > 0 && b % boundary != 0
  {
    BeforeIsSameChunk(b, boundary);
    if alignment == 0 {
      AllOnes();
      MaskTestsAlignment(b, 64);
      assert Wrap(0 - 1) == TWO_64 - 1;
    } else {
      WrapSmall(alignment - 1);
      assert Pow2(3) == 8 && Pow2(6) == 8 * Pow2(3);
      MaskFindsNothing(b, alignment - 1, 6);
    }
  }

  /** Size zero with a boundary finds nothing exactly when every block starts at the boundary, or the alignment is 0. */
  lemma ZeroSizeSearch(s: seq<nat>, alignment: Word, boundary: nat)
    requires alignment <= MIN_BLOCK && boundary > 0 && s != []
    requires forall b :: b in s ==> 0 < b < TWO_64 && b % MIN_BLOCK == 0
    ensures Search(s, 0, Widened(alignment, 0), boundary) == |s| <==>
            alignment == 0 || forall b :: b in s ==> b % boundary == 0
  {
    hide Meets, FirstMeeting;
    forall b | b in s
      ensures Meets(b, 0, alignment, boundary) <==> alignment > 0 && b % boundary != 0
    {
      ZeroSizeMeets(b, alignment, boundary);
    }
    var i := FirstMeeting(s, 0, alignment, boundary);
    if i < |s| {
      assert s[i] in s;
    }
  }

  lemma Spread(n: int, q: int, q': int)
    ensures n * (q' - q) == n * q' - n * q
  {
  }

  /** n divides s, if both of two numbers s apart are multiples of n. */
  lemma AtLeastOneStep(n: nat, q: nat, q': nat, s: nat)
    requires s > 0 && n * q' == n * q + s
    ensures n <= s
  {
    Spread(n, q, q');
    Multiple(n, q' - q);
  }

  lemma NeighboursApart(x: nat, s: nat, n: nat)
    requires s > 0 && n > 0 && n % s == 0 && x % n == 0 && (x + s) % n == 0
    ensures n == s
  {
    var q, q', d := x / n, (x + s) / n, n / s;
    assert n * q == x && n * q' == x + s && s * d == n;
    AtLeastOneStep(n, q, q', s);
    Multiple(s, d);
  }

  /** The blocks of a new page all start at the boundary only if the boundary is the block size. */
  lemma NewPageAtBoundary(c: nat, n: nat, boundary: nat)
    requires c % PG_SIZE == 0 && 2 <= n && boundary > 0 && boundary % MIN_BLOCK == 0
    ensures (forall b :: b in BlocksOf(c, 0, n) ==> b % boundary == 0) <==> boundary == MIN_BLOCK
  {
    var s := BlocksOf(c, 0, n);
    SizesOfGroups();
    assert s[0] in s && s[1] in s && s[1] == s[0] + MIN_BLOCK;
    if boundary == MIN_BLOCK {
      forall b | b in s
        ensures b % boundary == 0
      {
        var k :| 0 <= k < n && s[k] == b;
        BlockAligned(c, 0, k);
      }
    } else if s[0] % boundary == 0 && s[1] % boundary == 0 {
      NeighboursApart(s[0], MIN_BLOCK, boundary);
    }
  }

  /**
   The requests that no free block of 64 bytes passes: size zero with a boundary, where the alignment is 0, or
   every free block starts at the boundary; those of a new page do when the boundary is the block size itself.
   */
  ghost predicate ShutOut(h: Heap, size: Word, alignment: Word, boundary: nat)
    requires Shaped(h)
  {
    && size == 0 && boundary > 0
    && (alignment == 0
        || if h.free[0] == [] then boundary == MIN_BLOCK else forall b :: b in h.free[0] ==> b % boundary == 0)
  }

  /** The list that is searched. */
  function Supplied(h: Heap, g: nat, page: Option<nat>): Heap
    requires Shaped(h) && g < GROUPS && BlockCount(g) >= 0 && (h.free[g] != [] || page.Some?)
  {
    if h.free[g] == [] then Refilled(h, g, page.value) else h
  }

  lemma ZeroSizeList(h: Heap, live: set<nat>, alignment: Word, boundary: nat, page: Option<nat>)
    requires Inv(h, live) && GoodPage(h, page) && (h.free[0] != [] || page.Some?)
    requires boundary > 0 && boundary % MIN_BLOCK == 0
    ensures BlockCount(0) >= 7
    ensures var s := Supplied(h, 0, page).free[0];
            && s != [] && (forall b :: b in s ==> 0 < b < TWO_64 && b % MIN_BLOCK == 0)
            && (ShutOut(h, 0, alignment, boundary) <==> alignment == 0 || forall b :: b in s ==> b % boundary == 0)
  {
    SizesOfGroups();
    CountFillsPage(0);
    hide BlockCount, BlockSize, BlocksOf;
    if h.free[0] == [] {
      RefillKeeps(h, live, 0, page.value);
      NewPageAtBoundary(page.value, BlockCount(0), boundary);
      assert h.free[0] + BlocksOf(page.value, 0, BlockCount(0)) == BlocksOf(page.value, 0, BlockCount(0));
    }
    hide Inv;
    var s := Supplied(h, 0, page).free[0];
    forall b | b in s
      ensures 0 < b < TWO_64 && b % MIN_BLOCK == 0
    {
      FreeAligned(Supplied(h, 0, page), live, 0, b);
    }
  }

  lemma ZeroSizeOutcome(h: Heap, live: set<nat>, alignment: Word, boundary: nat, page: Option<nat>)
    requires Inv(h, live) && GoodPage(h, page) && (h.free[0] != [] || page.Some?)
    requires alignment <= MIN_BLOCK && boundary > 0 && boundary % MIN_BLOCK == 0
    ensures var r := Kmalloced(h, 0, alignment, boundary, page).1;
            && (r == NotFound <==> ShutOut(h, 0, alignment, boundary))
            && (r == NotFound || (r.Got? && r.b % MIN_BLOCK == 0))
  {
    assert GroupFrom(0, 0) == 0;
    ZeroSizeList(h, live, alignment, boundary, page);
    var s := Supplied(h, 0, page).free[0];
    ZeroSizeSearch(s, alignment, boundary);
    hide Inv, Search, BlockCount, BlockSize, BlocksOf, GroupFrom, ShutOut, Refilled, Taken, GoodPage;
    var i := Search(s, 0, Widened(alignment, 0), boundary);
    assert i < |s| ==> s[i] in s;
  }

  lemma PositiveSizeOutcome(h: Heap, live: set<nat>, size: Word, alignment: Word, boundary: nat, page: Option<nat>)
    requires Inv(h, live) && GoodPage(h, page) && (size > 0 || boundary == 0) && size <= MAX_BLOCK
    requires h.free[GroupFrom(size, 0)] != [] || page.Some?
    requires var s := BlockSize(GroupFrom(size, 0)); alignment <= s && boundary % s == 0
    ensures var r := Kmalloced(h, size, alignment, boundary, page).1;
            r.Got? && r.b % BlockSize(GroupFrom(size, 0)) == 0
  {
    var g := GroupFrom(size, 0);
    CountFillsPage(g);
    GroupFits(size, 0);
    if h.free[g] == [] {
      RefillKeeps(h, live, g, page.value);
    }
    var h1 := if h.free[g] == [] then Refilled(h, g, page.value) else h;
    FreeAligned(h1, live, g, h1.free[g][0]);
    hide BlockCount, BlockSize, GroupFrom, Search, Inv, Refilled;
    FirstIsTaken(h1.free[g], g, size, alignment, boundary);
  }

  /**
   With the requested alignment at most the block size, and the boundary zero or a multiple of it, kmalloc fails
   exactly for sizes over 256 KiB, for want of a page, and for the requests of size zero that are shut out; and
   what it returns is aligned to the block size.
   */
  lemma KmallocSucceeds(h: Heap, live: set<nat>, size: Word, alignment: Word, boundary: nat, page: Option<nat>)
    requires Inv(h, live) && GoodPage(h, page)
    requires var s := BlockSize(GroupFrom(size, 0)); alignment <= s && boundary % s == 0
    ensures var (g, (h', r)) := (GroupFrom(size, 0), Kmalloced(h, size, alignment, boundary, page));
            && (r == TooBig <==> size > MAX_BLOCK)
            && (r == NoPage <==> size <= MAX_BLOCK && h.free[g] == [] && page == None)
            && (r == NotFound <==> (h.free[g] != [] || page.Some?) && ShutOut(h, size, alignment, boundary))
            && (r.Got? ==> r.b % BlockSize(g) == 0 && size <= BlockSize(g))
  {
    var g := GroupFrom(size, 0);
    CountFillsPage(g);
    if size <= MAX_BLOCK && (h.free[g] != [] || page.Some?) {
      GroupFits(size, 0);
      if size > 0 || boundary == 0 {
        PositiveSizeOutcome(h, live, size, alignment, boundary, page);
      } else {
        SizesOfGroups();
        ZeroSizeOutcome(h, live, alignment, boundary, page);
      }
    }
    hide Inv, Search, BlockCount, BlockSize, GroupFrom;
  }

  /**
   The first call after start-up: with size zero, a boundary of 64 or an alignment of 0 finds nothing, one of 128
   does.
   */
  lemma ZeroSizeExamples()
    ensures Inv(Init(), {}) && GoodPage(Init(), Some(PG_SIZE))
    ensures Kmalloced(Init(), 0, 64, 64, Some(PG_SIZE)).1 == NotFound
    ensures Kmalloced(Init(), 0, 0, 128, Some(PG_SIZE)).1 == NotFound
    ensures Kmalloced(Init(), 0, 64, 128, Some(PG_SIZE)).1.Got?
  {
    InitInv();
    SizesOfGroups();
    assert GroupFrom(0, 0) == 0;
    hide Inv, Kmalloced, BlockSize, GroupFrom;
    ZeroSizeOutcome(Init(), {}, 64, 64, Some(PG_SIZE));
    ZeroSizeOutcome(Init(), {}, 0, 128, Some(PG_SIZE));
    ZeroSizeOutcome(Init(), {}, 64, 128, Some(PG_SIZE));
  }

  // ---------------------------------------------------------------- any alignment and boundary

  /** A block that a caller can use: at a multiple of the alignment, and in one chunk of the boundary. */
  predicate Suits(b: nat, size: nat, alignment: nat, boundary: nat)
    requires alignment > 0 && b > 0
  {
    b % alignment == 0 && (boundary == 0 || b / boundary == (b + size - 1) / boundary)
  }

  /** Nothing is found if no block suits; otherwise the first one that does. */
  ghost predicate FirstThatSuits(s: seq<nat>, r: Outcome, size: nat, alignment: nat, boundary: nat)
    requires alignment > 0 && forall i :: 0 <= i < |s| ==> s[i] > 0
  {
    if forall i :: 0 <= i < |s| ==> !Suits(s[i], size, alignment, boundary) then r == NotFound
    else
      exists i :: 0 <= i < |s| && r == Got(s[i]) && Suits(s[i], size, alignment, boundary)
        && forall j :: 0 <= j < i ==> !Suits(s[j], size, alignment, boundary)
  }

  lemma SearchFindsFirst(s: seq<nat>, g: nat, size: Word, alignment: Word, boundary: nat, k: nat)
    requires s != [] && size <= alignment == Pow2(k) && size <= BlockSize(g)
    requires forall i :: 0 <= i < |s| ==> s[i] > 0 && s[i] % BlockSize(g) == 0
    ensures var i := Search(s, size, Widened(alignment, size), boundary);
            FirstThatSuits(s, if i == |s| then NotFound else Got(s[i]), size, alignment, boundary)
  {
    var al := Widened(alignment, size);
    forall i | 0 <= i < |s|
      ensures Meets(s[i], size, al, boundary) <==> Suits(s[i], size, alignment, boundary)
    {
      MeetsIsSuits(s[i], size, alignment, boundary, k);
    }
    if al <= size && boundary == 0 {
      SmallAlignment(s[0], g, size, k);
    }
    hide Meets, BlockSize;
  }

  lemma {:induction false} PowDivides(a: nat, j: nat, k: nat)
    requires j <= k && a % Pow2(k) == 0
    ensures a % Pow2(j) == 0
    decreases k
  {
    if j < k {
      var q, p := a / Pow2(k), Pow2(k - 1);
      assert a == (2 * q) * p + 0;
      QuotientOf(2 * q, 0, p);
      PowDivides(a, j, k - 1);
    }
  }

  lemma {:induction false} PowOrder(j: nat, k: nat)
    ensures Pow2(j) <= Pow2(k) ==> j <= k
  {
    if j > k {
      PowGrows(k + 1, j);
    }
  }

  /** A power of two that is at most the size divides every block of the size's group. */
  lemma SmallAlignment(b: nat, g: nat, size: nat, k: nat)
    requires b % BlockSize(g) == 0 && Pow2(k) <= size <= BlockSize(g)
    ensures b % Pow2(k) == 0
  {
    SizeIsPower(g);
    PowOrder(k, g + 6);
    PowDivides(b, k, g + 6);
  }

  /** A block that passes the tests of the search suits the caller. */
  lemma MeetsSuits(b: nat, g: nat, size: Word, alignment: Word, boundary: nat, k: nat)
    requires 0 < b && b % BlockSize(g) == 0 && size <= BlockSize(g) && alignment == Pow2(k)
    requires Meets(b, size, Widened(alignment, size), boundary)
    ensures Suits(b, size, alignment, boundary)
  {
    if alignment < size {
      SmallAlignment(b, g, size, k);
    } else {
      WrapSmall(alignment - 1);
      MaskTestsAlignment(b, k);
    }
  }

  /** For alignments from the size up, the tests are exact. */
  lemma MeetsIsSuits(b: nat, size: Word, alignment: Word, boundary: nat, k: nat)
    requires 0 < b && size <= alignment == Pow2(k)
    ensures Meets(b, size, Widened(alignment, size), boundary) <==> Suits(b, size, alignment, boundary)
  {
    WrapSmall(alignment - 1);
    MaskTestsAlignment(b, k);
  }

  /** What Kmalloced does with the list that is searched. */
  lemma SearchOutcome(h: Heap, size: Word, alignment: Word, boundary: nat, page: Option<nat>)
    requires Shaped(h) && size <= MAX_BLOCK && (h.free[GroupFrom(size, 0)] != [] || page.Some?)
    ensures BlockCount(GroupFrom(size, 0)) >= 7
    ensures var s := Supplied(h, GroupFrom(size, 0), page).free[GroupFrom(size, 0)];
            var i, r := Search(s, size, Widened(alignment, size), boundary),
                        Kmalloced(h, size, alignment, boundary, page).1;
            r == if i == |s| then NotFound else Got(s[i])
  {
    CountFillsPage(GroupFrom(size, 0));
    hide Search, GroupFrom, BlockCount, Refilled;
  }

  lemma SuppliedBlocks(h: Heap, live: set<nat>, g: nat, page: Option<nat>)
    requires Inv(h, live) && GoodPage(h, page) && g < GROUPS && (h.free[g] != [] || page.Some?)
    ensures BlockCount(g) >= 0 && Supplied(h, g, page).free[g] != []
    ensures forall b :: b in Supplied(h, g, page).free[g] ==> 0 < b < TWO_64 && b % BlockSize(g) == 0
  {
    CountFillsPage(g);
    if h.free[g] == [] {
      RefillKeeps(h, live, g, page.value);
      assert h.free[g] + BlocksOf(page.value, g, BlockCount(g)) == BlocksOf(page.value, g, BlockCount(g));
    }
    hide BlockSize, BlockCount, BlocksOf;
    forall b | b in Supplied(h, g, page).free[g]
      ensures 0 < b < TWO_64 && b % BlockSize(g) == 0
    {
      FreeAligned(Supplied(h, g, page), live, g, b);
    }
  }

  /**
   For every size, every boundary and every alignment that is a power of two, also above the block size: what kmalloc
   returns is large enough, lies at a multiple of the alignment and in one chunk of the boundary.
   */
  lemma KmallocHonours(h: Heap, live: set<nat>, size: Word, alignment: Word, boundary: nat, page: Option<nat>, k: nat)
    requires Inv(h, live) && GoodPage(h, page) && alignment == Pow2(k)
    ensures var r := Kmalloced(h, size, alignment, boundary, page).1;
            r.Got? ==> 0 < r.b && size <= BlockSize(GroupFrom(size, 0)) && Suits(r.b, size, alignment, boundary)
  {
    var g := GroupFrom(size, 0);
    var r := Kmalloced(h, size, alignment, boundary, page).1;
    if r.Got? {
      GroupFits(size, 0);
      SearchOutcome(h, size, alignment, boundary, page);
      SuppliedBlocks(h, live, g, page);
      var s := Supplied(h, g, page).free[g];
      var i := Search(s, size, Widened(alignment, size), boundary);
      assert s[i] in s;
      if Widened(alignment, size) <= size && boundary == 0 {
        SmallAlignment(s[i], g, size, k);
      } else {
        hide Inv, Kmalloced, BlockSize, BlockCount, GroupFrom, Suits;
        MeetsSuits(s[i], g, size, alignment, boundary, k);
      }
    }
  }

  /**
   For alignments from the size up kmalloc fails to find a block exactly when no free block of the group suits; and
   otherwise it takes the first one that does.
   */
  lemma KmallocFindsFirst(h: Heap, live: set<nat>, size: Word, alignment: Word, boundary: nat, page: Option<nat>,
          k: nat)
    requires Inv(h, live) && GoodPage(h, page) && size <= MAX_BLOCK && size <= alignment == Pow2(k)
    requires h.free[GroupFrom(size, 0)] != [] || page.Some?
    ensures BlockCount(GroupFrom(size, 0)) >= 7
    ensures var s := Supplied(h, GroupFrom(size, 0), page).free[GroupFrom(size, 0)];
            (forall i :: 0 <= i < |s| ==> s[i] > 0)
            && FirstThatSuits(s, Kmalloced(h, size, alignment, boundary, page).1, size, alignment, boundary)
  {
    var g := GroupFrom(size, 0);
    GroupFits(size, 0);
    SearchOutcome(h, size, alignment, boundary, page);
    SuppliedBlocks(h, live, g, page);
    var s := Supplied(h, g, page).free[g];
    hide Inv, Kmalloced, BlockCount, GroupFrom, Supplied, Search, FirstThatSuits, BlockSize;
    forall i | 0 <= i < |s|
      ensures s[i] > 0 && s[i] % BlockSize(g) == 0
    {
      assert s[i] in s;
    }
    SearchFindsFirst(s, g, size, alignment, boundary, k);
  }

  // ---------------------------------------------------------------- live blocks

  /** The size of the block at b. */
  function SizeOf(h: Heap, b: nat): nat {
    BlockSize(HeaderOf(h, CacheOf(b)).g)
  }

  /** Two blocks, of which one is live, do not overlap, and each lies behind its page's header and inside its page. */
  lemma BlocksDisjoint(h: Heap, live: set<nat>, b: nat, b': nat)
    requires Inv(h, live) && b in live && b' != b
    requires b' in live || exists g :: 0 <= g < GROUPS && b' in h.free[g]
    ensures b + SizeOf(h, b) <= b' || b' + SizeOf(h, b') <= b
    ensures CacheOf(b) + SizeOf(h, b) <= b && b + SizeOf(h, b) <= CacheOf(b) + PG_SIZE
  {
    assert LiveOk(h, b);
    var c, c' := CacheOf(b), CacheOf(b');
    if b' in live {
      assert LiveOk(h, b');
    } else {
      var g :| 0 <= g < GROUPS && b' in h.free[g];
      assert ListOk(h, g) && IsBlock(h.caches, g, b');
    }
    assert CacheOk(h, c) && CacheOk(h, c');
    hide BlockAt, IndexIn, CacheOf, BlockCount, BlockSize;
    var k, k' := h.caches[c], h.caches[c'];
    assert c == c' ==> IndexIn(c, k.g, b) != IndexIn(c, k.g, b');
    BlocksApart(c, k.g, IndexIn(c, k.g, b), c', k'.g, IndexIn(c', k'.g, b'));
    BlockInside(c, k.g, IndexIn(c, k.g, b));
  }

  // ---------------------------------------------------------------- runs

  datatype Call = Malloc(size: Word, alignment: Word, boundary: nat, page: Option<nat>) | Free(b: nat)

  /** The heap, the live blocks, and the calls made so far, one after the other. */
  ghost predicate Serves(h: Heap, live: set<nat>, call: Call, h': Heap, live': set<nat>) {
    match call
    case Malloc(size, alignment, boundary, page) =>
      && Shaped(h) && GoodPage(h, page)
      && var (h1, r) := Kmalloced(h, size, alignment, boundary, page);
         h' == h1 && live' == LiveAfter(live, r)
    case Free(b) =>
      && b in live && Shaped(h) && CacheOf(b) in h.caches && h.caches[CacheOf(b)].g < GROUPS &&
          h.caches[CacheOf(b)].n >= 0
      && h' == Freed(h, b) && live' == live - {b}
  }

  ghost predicate History(hs: seq<Heap>, lives: seq<set<nat>>, calls: seq<Call>) {
    && |hs| == |lives| == |calls| + 1 && hs[0] == Init() && lives[0] == {}
    && forall i :: 0 <= i < |calls| ==> Serves(hs[i], lives[i], calls[i], hs[i + 1], lives[i + 1])
  }

  lemma {:induction false} HistoryKeeps(hs: seq<Heap>, lives: seq<set<nat>>, calls: seq<Call>, i: nat)
    requires History(hs, lives, calls) && i < |hs|
    ensures Inv(hs[i], lives[i])
  {
    hide Inv, Kmalloced, Freed;
    if i == 0 {
      InitInv();
    } else {
      HistoryKeeps(hs, lives, calls, i - 1);
      assert Serves(hs[i - 1], lives[i - 1], calls[i - 1], hs[i], lives[i]);
      match calls[i - 1]
      case Malloc(size, alignment, boundary, page) =>
        KmallocedKeeps(hs[i - 1], lives[i - 1], size, alignment, boundary, page);
      case Free(b) => FreedKeeps(hs[i - 1], lives[i - 1], b);
    }
  }

  /**
   Over every history of kmalloc and kfree: live blocks do not overlap and lie inside their pages, total_free
   is the length of the list, cnt is the number of the page's blocks on it, and it is the number of all its
   blocks exactly when none of them is live.
   */
  lemma HeapStaysSound(hs: seq<Heap>, lives: seq<set<nat>>, calls: seq<Call>, i: nat)
    requires History(hs, lives, calls) && i < |hs|
    ensures Shaped(hs[i])
    ensures forall b, b' :: b in lives[i] && b' in lives[i] && b != b' ==>
              (b + SizeOf(hs[i], b) <= b' || b' + SizeOf(hs[i], b') <= b) &&
                  b + SizeOf(hs[i], b) <= CacheOf(b) + PG_SIZE
    ensures forall g :: 0 <= g < GROUPS ==> hs[i].total[g] == |hs[i].free[g]|
    ensures forall c :: c in hs[i].caches ==>
              var k := hs[i].caches[c];
              k.g < GROUPS && k.cnt == CountIn(hs[i].free[k.g], c) && 0 <= k.cnt <= k.n
              && (k.cnt == k.n <==> forall b :: b in lives[i] ==> CacheOf(b) != c)
  {
    var h, live := hs[i], lives[i];
    HistoryKeeps(hs, lives, calls, i);
    forall b, b' | b in live && b' in live && b != b'
      ensures (b + SizeOf(h, b) <= b' || b' + SizeOf(h, b') <= b) && b + SizeOf(h, b) <= CacheOf(b) + PG_SIZE
    {
      BlocksDisjoint(h, live, b, b');
    }
    forall g | 0 <= g < GROUPS
      ensures h.total[g] == |h.free[g]|
    {
      assert ListOk(h, g);
    }
    forall c | c in h.caches
      ensures CacheOk(h, c) && 0 <= h.caches[c].cnt <= h.caches[c].n
      ensures h.caches[c].cnt == h.caches[c].n <==> forall b :: b in live ==> CacheOf(b) != c
    {
      CountBounds(h, live, c);
      if forall b :: b in live ==> CacheOf(b) != c {
        CountFull(h, live, c);
      }
    }
  }
}
