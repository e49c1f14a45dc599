/** The allocator of physical pages of 2 MiB: a set bit is a free page. */
module PhysPages {
  import opened Constants
  import opened Words
  import opened Bitmap

  const PAGE_BITMAP_BYTES_LEN: nat := 2048

  /** The bits i, ..., i + n - 1 set to v, as far as they exist. */
  function Fill(bits: seq<bool>, i: nat, n: nat, v: bool): (r: seq<bool>)
    ensures |r| == |bits|
    ensures forall k :: 0 <= k < |bits| ==> r[k] == if i <= k < i + n then v else bits[k]
  {
    seq(|bits|, k requires 0 <= k < |bits| => if i <= k < i + n then v else bits[k])
  }

  datatype AllocStatus = Granted | NoMem

  /** The truncation of the index to 32 bits changes nothing, as the bitmap is short. */
  lemma IndexFits(bits: seq<bool>, n: nat, index: nat)
    requires 0 < n && |bits| < TWO_32 && exists i: nat :: index == i % TWO_32 && LeastRun(bits, true, i, n)
    ensures LeastRun(bits, true, index, n)
  {
    var i: nat :| index == i % TWO_32 && LeastRun(bits, true, i, n);
    assert i < |bits|;
  }

  class PageAllocator {
    const bitmap: BitMap
    var freePages: Word

    ghost predicate Valid()
      reads this, bitmap
    {
      bitmap.Valid() && bitmap.len <= PAGE_BITMAP_BYTES_LEN
    }

    ghost function Bits(): seq<bool>
      reads this, bitmap, bitmap.bytes
      requires Valid()
    {
      bitmap.Bits()
    }

    constructor (bitmap: BitMap, freePages: Word)
      requires bitmap.Valid() && bitmap.len <= PAGE_BITMAP_BYTES_LEN
      ensures Valid() && this.bitmap == bitmap && this.freePages == freePages
    {
      this.bitmap := bitmap;
      this.freePages := freePages;
    }

    /** The loop of bitmap_set calls in both directions. */
    method SetRange(i: nat, n: nat, value: nat)
      requires Valid() && value < 2
      modifies bitmap.bytes
      ensures Bits() == Fill(old(Bits()), i, n, value == 1)
    {
      ghost var before := Bits();
      var k := i;
      while k < i + n
        invariant i <= k <= i + n
        invariant Bits() == Fill(before, i, k - i, value == 1)
      {
        bitmap.SetBit(k, value);
        k := k + 1;
      }
    }

    /** alloc_physical_page_sub */
    method AllocSub(n: nat) returns (status: AllocStatus, paddr: nat)
      requires Valid() && 0 < n
      modifies this, bitmap.bytes
      ensures Valid()
      ensures status == Granted <==> HasRun(old(Bits()), true, n)
      ensures status == NoMem ==> Bits() == old(Bits()) && freePages == old(freePages)
      ensures status == Granted ==>
                && paddr % PG_SIZE == 0
                && LeastRun(old(Bits()), true, paddr / PG_SIZE, n)
                && Bits() == Fill(old(Bits()), paddr / PG_SIZE, n, false)
                && freePages == Wrap(old(freePages) - n)
    {
      hide Run, LeastRun, HasRun, Fill;
      var found, index := bitmap.Alloc(1, n);
      if found != Success {
        return NoMem, 0;
      }
      IndexFits(Bits(), n, index);
      SetRange(index, n, 0);
      freePages := Wrap(freePages - n);
      status, paddr := Granted, index * PG_SIZE;
    }

    /** alloc_physical_page: first the unlocked comparison with the counter. */
    method Alloc(n: nat) returns (status: AllocStatus, paddr: nat)
      requires Valid() && 0 < n
      modifies this, bitmap.bytes
      ensures Valid()
      ensures status == Granted <==> n <= old(freePages) && HasRun(old(Bits()), true, n)
      ensures status == NoMem ==> Bits() == old(Bits()) && freePages == old(freePages)
      ensures status == Granted ==>
                && paddr % PG_SIZE == 0
                && LeastRun(old(Bits()), true, paddr / PG_SIZE, n)
                && Bits() == Fill(old(Bits()), paddr / PG_SIZE, n, false)
                && freePages == Wrap(old(freePages) - n)
    {
      if freePages < n {
        return NoMem, 0;
      }
      status, paddr := AllocSub(n);
    }

    /** free_physical_page */
    method Free(paddr: nat, n: nat)
      requires Valid() && 0 < n && paddr != 0 && paddr % PG_SIZE == 0
      modifies this, bitmap.bytes
      ensures Valid() && Bits() == Fill(old(Bits()), paddr / PG_SIZE, n, true)
      ensures freePages == Wrap(old(freePages) + n)
    {
      SetRange(paddr / PG_SIZE, n, 1);
      freePages := Wrap(freePages + n);
    }
  }

  // ---------------------------------------------------------------- counting

  function Count(bits: seq<bool>): nat {
    if bits == [] then 0 else Count(bits[..|bits| - 1]) + if bits[|bits| - 1] then 1 else 0
  }

  lemma {:induction false} CountUpdate(bits: seq<bool>, k: nat, v: bool)
    requires k < |bits|
    ensures Count(bits[k := v]) == Count(bits) - (if bits[k] then 1 else 0) + if v then 1 else 0
  {
    var last := |bits| - 1;
    if k == last {
      assert bits[k := v][..last] == bits[..last];
    } else {
      CountUpdate(bits[..last], k, v);
      assert bits[k := v][..last] == bits[..last][k := v];
    }
  }

  function Change(up: bool, n: nat): int {
    if up then n else -(n as int)
  }

  /** Filling a run of the opposite value changes the count by the length of the run. */
  lemma {:induction false} CountFill(bits: seq<bool>, i: nat, n: nat, v: bool)
    requires Run(bits, !v, i, n)
    ensures Count(Fill(bits, i, n, v)) == Count(bits) + Change(v, n)
  {
    if n == 0 {
      assert Fill(bits, i, 0, v) == bits;
    } else {
      var mid := Fill(bits, i, n - 1, v);
      CountFill(bits, i, n - 1, v);
      CountUpdate(mid, i + n - 1, v);
      assert Fill(bits, i, n, v) == mid[i + n - 1 := v];
    }
  }

  // ---------------------------------------------------------------- runs

  /** The allocator together with the allocations that have not been freed: first page and length. */
  datatype Phys = Phys(bits: seq<bool>, freePages: Word, live: set<(nat, nat)>)

  datatype Request = Get(n: nat, at: nat) | Put(at: nat, n: nat)

  /** A Get is granted at the least run of free pages; a Put returns a live allocation as a whole. */
  ghost predicate Serves(p: Phys, q: Request, p': Phys) {
    match q
    case Get(n, at) =>
      && 0 < n && LeastRun(p.bits, true, at, n)
      && p' == Phys(Fill(p.bits, at, n, false), Wrap(p.freePages - n), p.live + {(at, n)})
    case Put(at, n) =>
      && (at, n) in p.live
      && p' == Phys(Fill(p.bits, at, n, true), Wrap(p.freePages + n), p.live - {(at, n)})
  }

  predicate Apart(a: (nat, nat), b: (nat, nat)) {
    a.0 + a.1 <= b.0 || b.0 + b.1 <= a.0
  }

  ghost predicate PhysInv(p: Phys) {
    && (forall a :: a in p.live ==> 0 < a.1 && Run(p.bits, false, a.0, a.1))
    && (forall a, b :: a in p.live && b in p.live && a != b ==> Apart(a, b))
  }

  /** The counter less the number of free pages, as a word. */
  function Surplus(p: Phys): Word {
    Wrap(p.freePages - Count(p.bits))
  }

  lemma WrapShift(x: Word, c: nat, n: int)
    requires 0 <= c + n
    ensures Wrap(Wrap(x + n) - (c + n)) == Wrap(x - c)
  {
    assert (x + n) % TWO_64 == (x + n) - ((x + n) / TWO_64) * TWO_64;
    var k := (x + n) / TWO_64;
    assert Wrap(x + n) - (c + n) == (x - c) - k * TWO_64;
    ModShift(x - c, k);
  }

  lemma ModShift(x: int, k: int)
    ensures (x - k * TWO_64) % TWO_64 == x % TWO_64
  {
    var q := x / TWO_64;
    assert x == q * TWO_64 + x % TWO_64;
    assert x - k * TWO_64 == (q - k) * TWO_64 + x % TWO_64;
  }

  lemma RunsApart(bits: seq<bool>, a: (nat, nat), b: (nat, nat))
    requires 0 < a.1 && 0 < b.1 && Run(bits, false, a.0, a.1) && Run(bits, true, b.0, b.1)
    ensures Apart(a, b)
  {
    var k := if a.0 < b.0 then b.0 else a.0;
    assert k < a.0 + a.1 ==> !bits[k];
    assert k < b.0 + b.1 ==> bits[k];
  }

  lemma ServeKeepsInv(p: Phys, q: Request, p': Phys)
    requires PhysInv(p) && Serves(p, q, p')
    ensures PhysInv(p') && Surplus(p') == Surplus(p)
    ensures q.Get? ==> forall a :: a in p.live ==> Apart(a, (q.at, q.n))
  {
    hide Wrap;
    match q
    case Get(n, at) =>
      CountFill(p.bits, at, n, false);
      WrapShift(p.freePages, Count(p.bits), -(n as int));
      forall a | a in p.live
        ensures Apart(a, (at, n)) && Run(p'.bits, false, a.0, a.1)
      {
        RunsApart(p.bits, a, (at, n));
      }
      assert Run(p'.bits, false, at, n);
    case Put(at, n) =>
      CountFill(p.bits, at, n, true);
      WrapShift(p.freePages, Count(p.bits), n);
      forall a | a in p'.live
        ensures Run(p'.bits, false, a.0, a.1)
      {
        assert Apart(a, (at, n));
      }
  }

  ghost predicate History(ps: seq<Phys>, qs: seq<Request>) {
    && |ps| == |qs| + 1
    && forall i :: 0 <= i < |qs| ==> Serves(ps[i], qs[i], ps[i + 1])
  }

  /**
   Over every history of grants and returns, live allocations never overlap, their pages are all
   marked in use, and the counter moves in step with the bitmap.
   */
  lemma {:induction false} LiveAllocationsNeverOverlap(ps: seq<Phys>, qs: seq<Request>, i: nat)
    requires History(ps, qs) && i < |ps| && ps[0].live == {}
    ensures PhysInv(ps[i]) && Surplus(ps[i]) == Surplus(ps[0])
  {
    if i > 0 {
      LiveAllocationsNeverOverlap(ps, qs, i - 1);
      ServeKeepsInv(ps[i - 1], qs[i - 1], ps[i]);
    }
  }
}
