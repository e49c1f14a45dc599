/** The kernel heap: kmalloc and kfree on lists of free blocks, one list for each block size. */
module Allocator {
  import opened Words
  import opened Blocks
  import opened Options

  /** The header of a page in use: its group, its number of blocks and how many of them are free. */
  datatype Cache = Cache(g: nat, n: int, cnt: int)

  /** Free list and total_free of each group, and the pages in use by address. */
  datatype Heap = Heap(free: seq<seq<nat>>, total: seq<int>, caches: map<nat, Cache>)

  datatype Outcome = Got(b: nat) | TooBig | NoPage | NotFound

  ghost predicate Shaped(h: Heap) {
    |h.free| == GROUPS && |h.total| == GROUPS
  }

  function Init(): Heap {
    Heap(seq(GROUPS, _ => []), seq(GROUPS, _ => 0), map[])
  }

  // ---------------------------------------------------------------- kmalloc

  /** The first group whose blocks are large enough. */
  function GroupFrom(size: nat, g: nat): (r: nat)
    requires g < GROUPS
    ensures r < GROUPS
    decreases GROUPS - g
  {
    if size <= BlockSize(g) || g + 1 == GROUPS then g else GroupFrom(size, g + 1)
  }

  /** The tests of one block in kmalloc_find_block. */
  predicate Meets(b: nat, size: nat, alignment: Word, boundary: nat) {
    And(b, Wrap(alignment - 1)) == 0 && (boundary == 0 || b / boundary == (b + size - 1) / boundary)
  }

  function FirstMeeting(s: seq<nat>, size: nat, alignment: Word, boundary: nat): (i: nat)
    ensures i <= |s|
    ensures forall k :: 0 <= k < i ==> !Meets(s[k], size, alignment, boundary)
    ensures i < |s| ==> Meets(s[i], size, alignment, boundary)
  {
    if s == [] || Meets(s[0], size, alignment, boundary) then 0
    else 1 + FirstMeeting(s[1..], size, alignment, boundary)
  }

  /** kmalloc_find_block: the position of the block it takes, or the length of the list. */
  function Search(s: seq<nat>, size: nat, alignment: Word, boundary: nat): (i: nat)
    ensures i <= |s|
  {
    if (alignment <= size && boundary == 0) || s == [] then 0 else FirstMeeting(s, size, alignment, boundary)
  }

  /** Blocks 0 to n of the page at c, in order. */
  function BlocksOf(c: nat, g: nat, n: nat): (s: seq<nat>)
    ensures |s| == n && forall k :: 0 <= k < n ==> s[k] == BlockAt(c, g, k)
  {
    if n == 0 then [] else BlocksOf(c, g, n - 1) + [BlockAt(c, g, n - 1)]
  }

  function Refilled(h: Heap, g: nat, c: nat): Heap
    requires g < |h.free| && g < |h.total| && BlockCount(g) >= 0
  {
    var n := BlockCount(g);
    Heap(h.free[g := h.free[g] + BlocksOf(c, g, n)], h.total[g := h.total[g] + n], h.caches[c := Cache(g, n, n)])
  }

  function HeaderOf(h: Heap, c: nat): Cache {
    if c in h.caches then h.caches[c] else Cache(0, 0, 0)
  }

  function Taken(h: Heap, g: nat, i: nat): Heap
    requires g < |h.free| && g < |h.total| && i < |h.free[g]|
  {
    var s := h.free[g];
    var c := CacheOf(s[i]);
    var k := HeaderOf(h, c);
    Heap(h.free[g := s[..i] + s[i + 1..]], h.total[g := h.total[g] - 1], h.caches[c := k.(cnt := k.cnt - 1)])
  }

  /** `if (alignment < size) alignment = size`. */
  function Widened(alignment: Word, size: Word): Word {
    if alignment < size then size else alignment
  }

  /** kmalloc; `page` is what alloc_physical_page would return, as a virtual address. */
  function Kmalloced(h: Heap, size: Word, alignment: Word, boundary: nat, page: Option<nat>): (r: (Heap, Outcome))
    requires Shaped(h)
  {
    var al, g := Widened(alignment, size), GroupFrom(size, 0);
    if size > MAX_BLOCK then (h, TooBig)
    else if h.free[g] == [] && (page == None || BlockCount(g) < 0) then (h, NoPage)
    else
      var h1 := if h.free[g] == [] then Refilled(h, g, page.value) else h;
      var i := Search(h1.free[g], size, al, boundary);
      if i == |h1.free[g]| then (h1, NotFound) else (Taken(h1, g, i), Got(h1.free[g][i]))
  }

  // ---------------------------------------------------------------- kfree

  /** The list without the first k blocks of page c. */
  function Without(s: seq<nat>, c: nat, g: nat, k: nat): seq<nat> {
    if s == [] then []
    else Without(s[..|s| - 1], c, g, k)
         + if CacheOf(s[|s| - 1]) == c && IndexIn(c, g, s[|s| - 1]) < k then [] else [s[|s| - 1]]
  }

  /** Block b returns to its list. */
  function Returned(h: Heap, b: nat): Heap
    requires CacheOf(b) in h.caches && h.caches[CacheOf(b)].g < |h.free| && |h.total| == |h.free|
  {
    var c := CacheOf(b);
    var k := h.caches[c];
    Heap(h.free[k.g := h.free[k.g] + [b]], h.total[k.g := h.total[k.g] + 1], h.caches[c := k.(cnt := k.cnt + 1)])
  }

  /** All blocks of page c leave the list and the page goes back. */
  function Dropped(h: Heap, c: nat): Heap
    requires c in h.caches && h.caches[c].g < |h.free| && |h.total| == |h.free| && h.caches[c].n >= 0
  {
    var k := h.caches[c];
    Heap(h.free[k.g := Without(h.free[k.g], c, k.g, k.n)], h.total[k.g := h.total[k.g] - k.n], h.caches - {c})
  }

  function Freed(h: Heap, b: nat): Heap
    requires CacheOf(b) in h.caches && h.caches[CacheOf(b)].g < |h.free| && |h.total| == |h.free| &&
             h.caches[CacheOf(b)].n >= 0
  {
    var c, h1 := CacheOf(b), Returned(h, b);
    if h1.caches[c].cnt == h1.caches[c].n then Dropped(h1, c) else h1
  }
}
