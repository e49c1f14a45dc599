/** The heap's code: kmalloc and kfree as methods, with the memory they write, and their whole runs. */
module KernelHeap {
  import opened Words
  import opened Sequences
  import opened Blocks
  import opened Constants
  import opened Options
  import opened Allocator
  import opened AllocatorSafety

  /** Bytes of a free block that hold its magic number and list node. */
  const HEADER: nat := 24

  // ---------------------------------------------------------------- addresses

  /** Byte a belongs to a live block. */
  ghost predicate InLive(h: Heap, live: set<nat>, a: nat) {
    exists b :: b in live && b <= a < b + SizeOf(h, b)
  }

  /** No byte of a live block has changed. */
  ghost predicate Untouched(m: nat -> nat, m': nat -> nat, h: Heap, live: set<nat>) {
    forall a: nat :: InLive(h, live, a) ==> m'(a) == m(a)
  }

  lemma FreeNotLive(h: Heap, live: set<nat>, g: nat, b: nat, a: nat)
    requires Inv(h, live) && g < GROUPS && b in h.free[g] && b <= a < b + BlockSize(g)
    ensures !InLive(h, live, a)
  {
    assert ListOk(h, g) && IsBlock(h.caches, g, b);
    forall b' | b' in live && b' <= a < b' + SizeOf(h, b')
      ensures false
    {
      assert LiveOk(h, b');
      BlocksDisjoint(h, live, b', b);
    }
  }

  /** The bytes of a page that is not in use. */
  lemma NewPageNotLive(h: Heap, live: set<nat>, c: nat, a: nat)
    requires Inv(h, live) && c % PG_SIZE == 0 && c !in h.caches && c <= a < c + PG_SIZE
    ensures !InLive(h, live, a)
  {
    forall b | b in live && b <= a < b + SizeOf(h, b)
      ensures false
    {
      LiveInside(h, live, b);
      PagesApart(c, CacheOf(b));
    }
  }

  /** A live block lies in its page, behind its header. */
  lemma LiveInside(h: Heap, live: set<nat>, b: nat)
    requires Inv(h, live) && b in live
    ensures var c := CacheOf(b);
            c in h.caches && c % PG_SIZE == 0 && c + SizeOf(h, b) <= b && b + SizeOf(h, b) <= c + PG_SIZE &&
                SizeOf(h, b) >= 64
  {
    assert LiveOk(h, b);
    var c := CacheOf(b);
    assert CacheOk(h, c);
    BlockInside(c, h.caches[c].g, IndexIn(c, h.caches[c].g, b));
  }

  class KernelHeap {
    var free: seq<seq<nat>>
    var total: seq<int>
    var caches: map<nat, Cache>
    var mem: nat -> nat
    var locked: set<nat>

    ghost function St(): Heap
      reads this
    {
      Heap(free, total, caches)
    }

    /** mem_allocator_init. */
    constructor (mem: nat -> nat)
      ensures St() == Init() && this.mem == mem && locked == {}
    {
      locked := {};
      free, total, caches := seq(GROUPS, _ => []), seq(GROUPS, _ => 0), map[];
      this.mem := mem;
    }

    method Memset(lo: nat, n: nat)
      modifies `mem
      ensures forall a: nat :: mem(a) == if lo <= a < lo + n then 0 else old(mem)(a)
    {
      var m := mem;
      mem := (a: nat) => if lo <= a < lo + n then 0 else m(a);
    }

    /** A list operation writes magic numbers and links, here any bytes, into the headers of listed blocks. */
    method Relink(xs: seq<nat>, junk: nat -> nat)
      modifies `mem
      ensures OnlyHeaders(old(mem), mem, xs)
    {
      var m := mem;
      mem := (a: nat) => if exists x :: x in xs && x <= a < x + HEADER then junk(a) else m(a);
    }

    /** The loop that looks for the group. */
    method GroupFor(size: Word) returns (g: nat)
      requires size <= MAX_BLOCK
      ensures g == GroupFrom(size, 0)
    {
      hide BlockSize;
      g := 0;
      SizesOfGroups();
      while g < GROUPS
        invariant g < GROUPS && GroupFrom(size, 0) == GroupFrom(size, g)
        decreases GROUPS - g
      {
        if size <= BlockSize(g) {
          break;
        }
        assert g + 1 < GROUPS;
        g := g + 1;
      }
    }

    /** A new page: zeroed, its header filled in, its blocks appended to the list one by one. */
    method NewPage(g: nat, c: nat, junk: nat -> nat)
      requires Shaped(St()) && g < GROUPS && free[g] == [] && c % PG_SIZE == 0 && BlockCount(g) >= 0
      modifies `free, `total, `caches, `mem
      ensures St() == Refilled(old(St()), g, c)
      ensures forall a: nat :: c <= a < c + PG_SIZE && !InHeaders(free[g], a) ==> mem(a) == 0
      ensures forall a: nat :: !(c <= a < c + PG_SIZE) ==> mem(a) == old(mem)(a)
    {
      hide BlockSize, BlockCount, BlockAt, InHeaders;
      Memset(c, PG_SIZE);
      var n := BlockCount(g);
      caches := caches[c := Cache(g, n, n)];
      total := total[g := total[g] + n];
      var i := 0;
      while i < n
        invariant 0 <= i <= n && |free| == GROUPS && free[g] == BlocksOf(c, g, i)
        invariant free == old(free)[g := free[g]]
        invariant caches == old(caches)[c := Cache(g, n, n)] && total == old(total)[g := old(total)[g] + n]
        invariant forall a: nat :: c <= a < c + PG_SIZE && !InHeaders(free[g], a) ==> mem(a) == 0
        invariant forall a: nat :: !(c <= a < c + PG_SIZE) ==> mem(a) == old(mem)(a)
      {
        var b := BlockAt(c, g, i);
        MoreHeaders(free[g], b);
        free := free[g := free[g] + [b]];
        HeadersInPage(c, g, i + 1);
        Relink(free[g], junk);
        i := i + 1;
      }
      assert old(free)[g] + BlocksOf(c, g, n) == BlocksOf(c, g, n);
    }

    /** kmalloc_find_block, up to the point where the block is unlinked. */
    method FindBlock(s: seq<nat>, size: Word, alignment: Word, boundary: nat) returns (i: nat)
      ensures i == Search(s, size, alignment, boundary)
    {
      hide Meets;
      i := 0;
      if (alignment <= size && boundary == 0) || s == [] {
        return;
      }
      while i < |s|
        invariant i <= |s|
        invariant FirstMeeting(s, size, alignment, boundary) == i + FirstMeeting(s[i..], size, alignment, boundary)
      {
        if Meets(s[i], size, alignment, boundary) {
          break;
        }
        assert s[i..][1..] == s[i + 1..];
        i := i + 1;
      }
    }

    /** The block at position i is unlinked, zeroed and counted. */
    method TakeBlock(g: nat, i: nat, junk: nat -> nat) returns (b: nat)
      requires Shaped(St()) && g < GROUPS && i < |free[g]|
      modifies `free, `total, `caches, `mem
      ensures St() == Taken(old(St()), g, i) && b == old(free)[g][i]
      ensures forall a: nat :: b <= a < b + BlockSize(g) ==> mem(a) == 0
      ensures forall a: nat :: !InHeaders(old(free)[g], a) && !(b <= a < b + BlockSize(g)) ==> mem(a) == old(mem)(a)
    {
      hide BlockSize, CacheOf;
      b := free[g][i];
      Relink(free[g], junk);
      free := free[g := free[g][..i] + free[g][i + 1..]];
      Memset(b, BlockSize(g));
      var c := CacheOf(b);
      var k := if c in caches then caches[c] else Cache(0, 0, 0);
      caches := caches[c := k.(cnt := k.cnt - 1)];
      total := total[g := total[g] - 1];
    }

    /**
     kmalloc. `live` are the blocks handed out so far; none of their bytes changes, and a new one is all zero.
     The group's lock is released, except when no block meets the constraints.
     */
    method Kmalloc(size: Word, alignment: Word, boundary: nat, page: Option<nat>, junk: nat -> nat,
            ghost live: set<nat>)
      returns (r: Outcome)
      requires Inv(St(), live) && GoodPage(St(), page) && (size <= MAX_BLOCK ==> GroupFrom(size, 0) !in locked)
      modifies this
      ensures locked == old(locked) + if r == NotFound then {GroupFrom(size, 0)} else {}
      ensures (St(), r) == Kmalloced(old(St()), size, alignment, boundary, page)
      ensures Inv(St(), LiveAfter(live, r)) && (r.Got? ==> r.b !in live)
      ensures Untouched(old(mem), mem, old(St()), live)
      ensures r.Got? ==> forall a: nat :: r.b <= a < r.b + BlockSize(GroupFrom(size, 0)) ==> mem(a) == 0
    {
      hide Inv, BlockSize, BlockCount, CacheOf, InHeaders, Untouched, GroupFrom, Search;
      KmallocedKeeps(St(), live, size, alignment, boundary, page);
      InvShaped(St(), live);
      UntouchedRefl(mem, St(), live);
      var al := Widened(alignment, size);
      if size > MAX_BLOCK {
        return TooBig;
      }
      var g := GroupFor(size);
      locked := locked + {g};
      if free[g] == [] {
        if page == None {
          locked := locked - {g};
          return NoPage;
        }
        Refill(g, page.value, junk, live);
      }
      ghost var h1, m1 := St(), mem;
      var i := FindBlock(free[g], size, al, boundary);
      if i == |free[g]| {
        return NotFound;
      }
      var b := TakeBlock(g, i, junk);
      TakeUntouched(h1, live, g, i, m1, mem);
      UntouchedTrans(old(mem), m1, mem, old(St()), h1, live);
      r := Got(b);
      locked := locked - {g};
    }

    method Refill(g: nat, c: nat, junk: nat -> nat, ghost live: set<nat>)
      requires Inv(St(), live) && g < |free| && g < GROUPS && free[g] == [] && c !in caches && c % PG_SIZE == 0 &&
               c < TWO_64
      modifies `free, `total, `caches, `mem
      ensures BlockCount(g) >= 0 && g < |old(free)| && g < |old(total)| && St() == Refilled(old(St()), g, c)
      ensures Inv(St(), live) && SameSizes(old(St()), St(), live) && Untouched(old(mem), mem, old(St()), live)
    {
      ghost var h := St();
      RefillKeeps(h, live, g, c);
      InvShaped(h, live);
      RefillSizes(h, live, g, c);
      assert forall a: nat :: c <= a < c + PG_SIZE ==> !InLive(h, live, a) by {
        forall a: nat | c <= a < c + PG_SIZE
          ensures !InLive(h, live, a)
        {
          NewPageNotLive(h, live, c, a);
        }
      }
      hide Inv, BlockCount, InLive, SameSizes;
      NewPage(g, c, junk);
    }

    /** kfree. The blocks that stay live keep their bytes; a null pointer is ignored. */
    method Kfree(b: nat, junk: nat -> nat, ghost live: set<nat>)
      requires Inv(St(), live) && (b in live || b == 0)
      requires b in live && CacheOf(b) in caches ==> caches[CacheOf(b)].g !in locked
      modifies this
      ensures b == 0 ||
              (CacheOf(b) in old(caches) && old(caches)[CacheOf(b)].g < GROUPS && old(caches)[CacheOf(b)].n >= 0)
      ensures b == 0 ==> St() == old(St())
      ensures b != 0 ==> Shaped(old(St())) && St() == Freed(old(St()), b)
      ensures Inv(St(), live - {b}) && locked == old(locked)
      ensures Untouched(old(mem), mem, old(St()), live - {b})
    {
      ghost var h, m := St(), mem;
      UntouchedRefl(mem, h, live - {b});
      if b == 0 {
        ZeroNotLive(h, live);
        assert live - {b} == live;
        return;
      }
      InvShaped(h, live);
      FreedKeeps(h, live, b);
      ReturnKeeps(h, live, b);
      hide Inv, BlockSize, BlockCount, CacheOf, InHeaders, Untouched, Freed, Returned, SizeOf;
      var c := CacheOf(b);
      var g := caches[c].g;
      locked := locked + {g};
      ReturnBlock(b, c, junk);
      ghost var h1 := St();
      SizesReturned(h, live, b);
      HeadersUntouched(h1, live - {b}, g, m, mem);
      ghost var m1 := mem;
      UntouchedTrans2(m, m1, h, h1, live - {b});
      if caches[c].cnt == caches[c].n {
        DropPage(c, junk, live - {b});
        UntouchedTrans(m, m1, mem, h, h1, live - {b});
      }
      assert St() == Freed(h, b) by { FreedIs(h, b); }
      locked := locked - {g};
    }

    /** The magic number is restored and the block appended and counted. */
    method ReturnBlock(b: nat, c: nat, junk: nat -> nat)
      requires Shaped(St()) && c == CacheOf(b) && c in caches && caches[c].g < GROUPS
      modifies `free, `total, `caches, `mem
      ensures St() == Returned(old(St()), b)
      ensures OnlyHeaders(old(mem), mem, free[old(caches)[c].g])
    {
      hide CacheOf;
      var k := caches[c];
      free := free[k.g := free[k.g] + [b]];
      Relink(free[k.g], junk);
      total := total[k.g := total[k.g] + 1];
      caches := caches[c := k.(cnt := k.cnt + 1)];
    }

    method UnlinkBlock(g: nat, x: nat, junk: nat -> nat) returns (ghost i: nat)
      requires g < |free| && x in free[g]
      modifies `free, `mem
      ensures i < |old(free)[g]| && old(free)[g][i] == x
      ensures free == old(free)[g := old(free)[g][..i] + old(free)[g][i + 1..]]
      ensures OnlyHeaders(old(mem), mem, old(free)[g])
    {
      Relink(free[g], junk);
      var j :| 0 <= j < |free[g]| && free[g][j] == x;
      free := free[g := free[g][..j] + free[g][j + 1..]];
      i := j;
    }

    /** The loop that unlinks all blocks of a page, which then goes back. */
    method DropPage(c: nat, junk: nat -> nat, ghost live: set<nat>)
      requires Inv(St(), live) && c in caches && caches[c].cnt == caches[c].n
      modifies `free, `total, `caches, `mem
      ensures c in old(caches) && old(caches)[c].g < GROUPS && old(caches)[c].n >= 0 && Shaped(old(St()))
      ensures St() == Dropped(old(St()), c)
      ensures Untouched(old(mem), mem, old(St()), live)
    {
      ghost var h := St();
      DropKeeps(h, live, c);
      var k := caches[c];
      ghost var s := free[k.g];
      ListUnlinked(h, live, c);
      hide Inv, Without, BlockAt, BlockCount, OnlyHeaders;
      OnlyHeadersRefl(mem, s);
      var idx := 0;
      while idx < k.n
        invariant 0 <= idx <= k.n && |free| == GROUPS
        invariant free == h.free[k.g := Without(s, c, k.g, idx)]
        invariant caches == h.caches && total == h.total && OnlyHeaders(old(mem), mem, s)
      {
        UnlinkNext(h, live, c, idx);
        ghost var m, t := mem, free[k.g];
        var i := UnlinkBlock(k.g, BlockAt(c, k.g, idx), junk);
        OnlyHeadersTrans(old(mem), m, mem, s, t);
        idx := idx + 1;
      }
      HeadersUntouched(h, live, k.g, old(mem), mem);
      total := total[k.g := total[k.g] - k.n];
      caches := caches - {c};
    }
  }

  /** Only headers of blocks in s have changed. */
  ghost predicate OnlyHeaders(m: nat -> nat, m': nat -> nat, s: seq<nat>) {
    forall a: nat :: !InHeaders(s, a) ==> m'(a) == m(a)
  }

  lemma OnlyHeadersRefl(m: nat -> nat, s: seq<nat>)
    ensures OnlyHeaders(m, m, s)
  {
  }

  lemma OnlyHeadersTrans(m: nat -> nat, m1: nat -> nat, m2: nat -> nat, s: seq<nat>, t: seq<nat>)
    requires OnlyHeaders(m, m1, s) && OnlyHeaders(m1, m2, t) && forall x :: x in t ==> x in s
    ensures OnlyHeaders(m, m2, s)
  {
    forall a: nat | InHeaders(t, a)
      ensures InHeaders(s, a)
    {
    }
  }

  lemma ListUnlinked(h: Heap, live: set<nat>, c: nat)
    requires Inv(h, live) && c in h.caches
    ensures Shaped(h) && h.caches[c].g < GROUPS &&
            Without(h.free[h.caches[c].g], c, h.caches[c].g, 0) == h.free[h.caches[c].g]
  {
    var g := h.caches[c].g;
    assert CacheOk(h, c) && ListOk(h, g);
    hide CacheOf, IndexIn, BlockAt, BlockCount;
    forall x | x in h.free[g] && CacheOf(x) == c
      ensures IndexIn(c, g, x) >= 0
    {
      assert IsBlock(h.caches, g, x);
    }
    WithoutNone(h.free[g], c, g);
  }

  lemma InvShaped(h: Heap, live: set<nat>)
    requires Inv(h, live)
    ensures Shaped(h)
  {
  }

  /** Live blocks have the same size in both. */
  ghost predicate SameSizes(h: Heap, h': Heap, live: set<nat>) {
    forall b :: b in live ==> SizeOf(h', b) == SizeOf(h, b)
  }

  lemma RefillSizes(h: Heap, live: set<nat>, g: nat, c: nat)
    requires Inv(h, live) && g < GROUPS && c !in h.caches && BlockCount(g) >= 0
    ensures SameSizes(h, Refilled(h, g, c), live)
  {
    hide BlockCount;
    forall b | b in live
      ensures SizeOf(Refilled(h, g, c), b) == SizeOf(h, b)
    {
      LiveInside(h, live, b);
    }
  }

  lemma UntouchedRefl(m: nat -> nat, h: Heap, live: set<nat>)
    ensures Untouched(m, m, h, live) && SameSizes(h, h, live)
  {
  }

  lemma UntouchedTrans(m: nat -> nat, m1: nat -> nat, m2: nat -> nat, h: Heap, h1: Heap, live: set<nat>)
    requires Untouched(m, m1, h, live) && Untouched(m1, m2, h1, live) && SameSizes(h, h1, live)
    ensures Untouched(m, m2, h, live)
  {
    hide SizeOf;
    forall a: nat | InLive(h, live, a)
      ensures m2(a) == m(a)
    {
      var b :| b in live && b <= a < b + SizeOf(h, b);
      assert SizeOf(h1, b) == SizeOf(h, b);
      assert InLive(h1, live, a);
    }
  }

  /** Writing headers of listed blocks, and the whole of one of them, touches no live block. */
  lemma TakeUntouched(h: Heap, live: set<nat>, g: nat, i: nat, m: nat -> nat, m': nat -> nat)
    requires Inv(h, live) && g < GROUPS && g < |h.free| && i < |h.free[g]|
    requires var b := h.free[g][i];
             forall a: nat :: !InHeaders(h.free[g], a) && !(b <= a < b + BlockSize(g)) ==> m'(a) == m(a)
    ensures Untouched(m, m', h, live)
  {
    forall a: nat | InLive(h, live, a)
      ensures m'(a) == m(a)
    {
      HeadersNotLive(h, live, g, a);
      if h.free[g][i] <= a < h.free[g][i] + BlockSize(g) {
        FreeNotLive(h, live, g, h.free[g][i], a);
      }
    }
  }

  lemma HeadersNotLive(h: Heap, live: set<nat>, g: nat, a: nat)
    requires Inv(h, live) && g < GROUPS && InLive(h, live, a)
    ensures !InHeaders(h.free[g], a)
  {
    assert BlockSize(g) >= 64;
    hide Inv, InLive, BlockSize;
    forall x | x in h.free[g] && x <= a < x + HEADER
      ensures false
    {
      FreeNotLive(h, live, g, x, a);
    }
  }

  ghost predicate InHeaders(xs: seq<nat>, a: nat) {
    exists x :: x in xs && x <= a < x + HEADER
  }

  lemma MoreHeaders(xs: seq<nat>, b: nat)
    ensures forall a: nat :: InHeaders(xs, a) ==> InHeaders(xs + [b], a)
  {
    forall a: nat | InHeaders(xs, a)
      ensures InHeaders(xs + [b], a)
    {
      var x :| x in xs && x <= a < x + HEADER;
      assert x in xs + [b];
    }
  }

  lemma HeadersInPage(c: nat, g: nat, n: nat)
    requires g < GROUPS && n <= BlockCount(g)
    ensures forall a: nat :: InHeaders(BlocksOf(c, g, n), a) ==> c <= a < c + PG_SIZE
  {
    var s := BlocksOf(c, g, n);
    assert BlockSize(g) >= 64;
    forall k | 0 <= k < n
      ensures c <= s[k] && s[k] + 64 <= c + PG_SIZE
    {
      BlockInside(c, g, k);
    }
    hide BlockAt, BlockCount, BlockSize, BlocksOf;
  }

  // ---------------------------------------------------------------- about kfree

  lemma ZeroNotLive(h: Heap, live: set<nat>)
    requires Inv(h, live)
    ensures 0 !in live
  {
    if 0 in live {
      LiveInside(h, live, 0);
    }
  }

  lemma FreedIs(h: Heap, b: nat)
    requires Shaped(h) && CacheOf(b) in h.caches && h.caches[CacheOf(b)].g < GROUPS && h.caches[CacheOf(b)].n >= 0
    ensures var c, h1 := CacheOf(b), Returned(h, b);
            c in h1.caches && h1.caches[c].g == h.caches[c].g && h1.caches[c].n == h.caches[c].n && Shaped(h1)
            && Freed(h, b) == if h1.caches[c].cnt == h1.caches[c].n then Dropped(h1, c) else h1
  {
    hide CacheOf;
  }

  lemma SizesReturned(h: Heap, live: set<nat>, b: nat)
    requires Inv(h, live) && b in live
    ensures CacheOf(b) in h.caches && h.caches[CacheOf(b)].g < GROUPS && Shaped(h)
    ensures SameSizes(h, Returned(h, b), live - {b})
  {
    LiveInside(h, live, b);
    assert LiveOk(h, b);
    forall b' | b' in live
      ensures SizeOf(Returned(h, b), b') == SizeOf(h, b')
    {
      LiveInside(h, live, b');
    }
  }

  lemma HeadersUntouched(h: Heap, live: set<nat>, g: nat, m: nat -> nat, m': nat -> nat)
    requires Inv(h, live) && g < GROUPS && Shaped(h) && OnlyHeaders(m, m', h.free[g])
    ensures Untouched(m, m', h, live)
  {
    forall a: nat | InLive(h, live, a)
      ensures m'(a) == m(a)
    {
      HeadersNotLive(h, live, g, a);
    }
  }

  lemma UntouchedTrans2(m: nat -> nat, m1: nat -> nat, h: Heap, h1: Heap, live: set<nat>)
    requires Untouched(m, m1, h1, live) && SameSizes(h, h1, live)
    ensures Untouched(m, m1, h, live)
  {
    UntouchedRefl(m, h, live);
    UntouchedTrans(m, m, m1, h, h1, live);
  }

  lemma {:induction false} WithoutNone(s: seq<nat>, c: nat, g: nat)
    requires forall x :: x in s && CacheOf(x) == c ==> IndexIn(c, g, x) >= 0
    ensures Without(s, c, g, 0) == s
  {
    if s != [] {
      assert s[|s| - 1] in s;
      WithoutLast(s, c, g, 0);
      WithoutNone(s[..|s| - 1], c, g);
    }
  }

  /** With no block of index k left, the next list is the same. */
  lemma {:induction false} WithoutSame(s: seq<nat>, c: nat, g: nat, k: nat)
    requires forall y :: y in s && CacheOf(y) == c ==> IndexIn(c, g, y) != k
    ensures Without(s, c, g, k + 1) == Without(s, c, g, k)
  {
    if s != [] {
      WithoutLast(s, c, g, k);
      WithoutLast(s, c, g, k + 1);
      hide CacheOf, IndexIn, Without;
      assert s[|s| - 1] in s;
      WithoutSame(s[..|s| - 1], c, g, k);
    }
  }

  /** Unlinking the block of index k. */
  lemma LastStays(w: seq<nat>, i: nat, last: nat)
    requires i < |w|
    ensures (w + [last])[..i] + (w + [last])[i + 1..] == w[..i] + w[i + 1..] + [last]
  {
  }

  lemma {:induction false} WithoutNext(s: seq<nat>, c: nat, g: nat, k: nat, x: nat, i: nat)
    requires Distinct(s) && CacheOf(x) == c && IndexIn(c, g, x) == k
    requires forall y :: y in s && CacheOf(y) == c && IndexIn(c, g, y) == k ==> y == x
    requires i < |Without(s, c, g, k)| && Without(s, c, g, k)[i] == x
    ensures var w := Without(s, c, g, k); Without(s, c, g, k + 1) == w[..i] + w[i + 1..]
  {
    var rest, last := s[..|s| - 1], s[|s| - 1];
    WithoutLast(s, c, g, k);
    WithoutLast(s, c, g, k + 1);
    WithoutIs(rest, c, g, k);
    hide CacheOf, IndexIn, Without;
    var w, w' := Without(s, c, g, k), Without(rest, c, g, k);
    assert last in s;
    if i == |w'| {
      assert last == x && last !in rest;
      WithoutSame(rest, c, g, k);
      assert w == w' + [x];
    } else {
      assert w'[i] == x && x in w' && x in rest;
      WithoutNext(rest, c, g, k, x, i);
      LastStays(w', i, last);
    }
  }

  /** In a page with no live block, the block of index idx is still listed. */
  lemma UnlinkNext(h: Heap, live: set<nat>, c: nat, idx: nat)
    requires Inv(h, live) && c in h.caches && h.caches[c].cnt == h.caches[c].n && idx < h.caches[c].n
    ensures Shaped(h) && h.caches[c].g < GROUPS
    ensures var g := h.caches[c].g; var s, x := h.free[g], BlockAt(c, g, idx); var w := Without(s, c, g, idx);
            && x in w && (forall y :: y in w ==> y in s)
            && forall i {:trigger w[i]} :: 0 <= i < |w| && w[i] == x ==>
                Without(s, c, g, idx + 1) == w[..i] + w[i + 1..]
  {
    var k := h.caches[c];
    assert CacheOk(h, c) && ListOk(h, k.g);
    FreeIndices(h, c);
    BlockRoundTrip(c, k.g, idx);
    var s, x, r := h.free[k.g], BlockAt(c, k.g, idx), Indices(h.free[k.g], c, k.g);
    WithoutIs(s, c, k.g, idx);
    hide BlockCount, CacheOf, IndexIn, BlockAt, Without;
    if idx !in r {
      Pigeonhole(r + [idx], k.n);
    }
    forall y | y in s && CacheOf(y) == c && IndexIn(c, k.g, y) == idx
      ensures y == x
    {
      assert IsBlock(h.caches, k.g, y);
    }
    var w := Without(s, c, k.g, idx);
    forall i {:trigger w[i]} | 0 <= i < |w| && w[i] == x
      ensures Without(s, c, k.g, idx + 1) == w[..i] + w[i + 1..]
    {
      WithoutNext(s, c, k.g, idx, x, i);
    }
  }
}
