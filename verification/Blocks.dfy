/** The address arithmetic of the kernel heap: pages of 2 MiB cut into blocks of one size. */
module Blocks {
  import opened Arithmetic
  import opened Constants

  const MIN_BLOCK: nat := 64
  const MAX_BLOCK: nat := 262144
  const GROUPS: nat := 13

  /** The block size of group g: 64 shifted left g times. */
  function BlockSize(g: nat): (s: nat)
    ensures s > 0
  {
    64 * Pow2(g)
  }

  lemma SizesOfGroups()
    ensures BlockSize(0) == MIN_BLOCK && BlockSize(GROUPS - 1) == MAX_BLOCK
  {
    assert Pow2(4) == 16 && Pow2(8) == 16 * Pow2(4) && Pow2(12) == 16 * Pow2(8);
  }

  lemma SmallestDividesPage()
    ensures BlockSize(0) * Pow2(15) == PG_SIZE
  {
    assert Pow2(5) == 32 && Pow2(10) == 32 * Pow2(5) && Pow2(15) == 32 * Pow2(10);
  }

  lemma MoveTwo(s: nat, p: nat)
    ensures s * (2 * p) == (2 * s) * p
  {
  }

  /** Pages are a multiple of every block size. */
  lemma {:induction false} SizeDividesPage(g: nat)
    requires g < GROUPS
    ensures BlockSize(g) * Pow2(15 - g) == PG_SIZE
  {
    if g == 0 {
      SmallestDividesPage();
    } else {
      SizeDividesPage(g - 1);
      var s, p := BlockSize(g - 1), Pow2(15 - g);
      assert BlockSize(g) == 2 * s && Pow2(16 - g) == 2 * p;
      hide Pow2, BlockSize;
      MoveTwo(s, p);
    }
  }

  lemma ExactQuotient(s: nat, p: nat)
    requires s > 0
    ensures s * p / s == p && p * s == s * p
  {
    assert p * s + 0 == s * p;
    QuotientOf(p, 0, s);
  }

  /** number_of_blocks: the first block's room holds the cache's header. */
  function BlockCount(g: nat): int {
    PG_SIZE / BlockSize(g) - 1
  }

  lemma CountFillsPage(g: nat)
    requires g < GROUPS
    ensures BlockCount(g) >= 7 && (BlockCount(g) + 1) * BlockSize(g) == PG_SIZE
  {
    assert Pow2(3) == 8;
    hide Pow2, BlockSize;
    SizeDividesPage(g);
    PowGrows(3, 15 - g);
    var s, p := BlockSize(g), Pow2(15 - g);
    ExactQuotient(s, p);
  }

  /** cache2block. */
  function BlockAt(c: nat, g: nat, idx: nat): nat {
    c + BlockSize(g) + idx * BlockSize(g)
  }

  /** block2cache: the low 21 bits cleared. */
  function CacheOf(b: nat): nat {
    b / PG_SIZE * PG_SIZE
  }

  /** block_index. */
  function IndexIn(c: nat, g: nat, b: nat): int {
    (b - (c + BlockSize(g))) / BlockSize(g)
  }

  lemma Within(n: nat, idx: nat, s: nat, size: nat)
    requires idx < n && (n + 1) * s == size
    ensures s + idx * s + s <= size
  {
    var rest := n - 1 - idx;
    assert (idx + 2 + rest) * s == idx * s + 2 * s + rest * s;
  }

  /** A block lies behind the header and inside its page. */
  lemma BlockInside(c: nat, g: nat, idx: nat)
    requires g < GROUPS && idx < BlockCount(g)
    ensures c + BlockSize(g) <= BlockAt(c, g, idx) && BlockAt(c, g, idx) + BlockSize(g) <= c + PG_SIZE
  {
    hide BlockSize, BlockCount;
    var s := BlockSize(g);
    assert s + idx * s + s <= PG_SIZE by {
      CountFillsPage(g);
      Within(BlockCount(g), idx, s, PG_SIZE);
    }
  }

  /** block2cache and block_index undo cache2block. */
  lemma BlockRoundTrip(c: nat, g: nat, idx: nat)
    requires g < GROUPS && idx < BlockCount(g) && c % PG_SIZE == 0
    ensures CacheOf(BlockAt(c, g, idx)) == c && IndexIn(c, g, BlockAt(c, g, idx)) == idx
  {
    BlockInside(c, g, idx);
    QuotientOf(idx, 0, BlockSize(g));
    assert BlockAt(c, g, idx) == c / PG_SIZE * PG_SIZE + (BlockAt(c, g, idx) - c);
    QuotientOf(c / PG_SIZE, BlockAt(c, g, idx) - c, PG_SIZE);
  }

  lemma Regroup(m: nat, s: nat, p: nat, idx: nat)
    ensures m * (s * p) + s + idx * s == (m * p + 1 + idx) * s + 0
  {
    assert m * (s * p) == m * p * s;
  }

  /** Blocks are aligned to their size. */
  lemma BlockAligned(c: nat, g: nat, idx: nat)
    requires g < GROUPS && c % PG_SIZE == 0
    ensures BlockAt(c, g, idx) % BlockSize(g) == 0
  {
    SizeDividesPage(g);
    hide BlockSize, Pow2;
    var s, p, m := BlockSize(g), Pow2(15 - g), c / PG_SIZE;
    assert c == m * (s * p);
    Regroup(m, s, p, idx);
    QuotientOf(m * p + 1 + idx, 0, s);
  }

  /** Different blocks do not overlap, whether of one page or of two. */
  lemma BlocksApart(c: nat, g: nat, idx: nat, c': nat, g': nat, idx': nat)
    requires g < GROUPS && idx < BlockCount(g) && c % PG_SIZE == 0
    requires g' < GROUPS && idx' < BlockCount(g') && c' % PG_SIZE == 0
    requires c != c' || (g == g' && idx != idx')
    ensures var b, b' := BlockAt(c, g, idx), BlockAt(c', g', idx');
            b + BlockSize(g) <= b' || b' + BlockSize(g') <= b
  {
    hide BlockSize, BlockCount;
    if c == c' {
      Difference(idx, idx', BlockSize(g));
      Multiple(BlockSize(g), idx' - idx);
    } else {
      BlockInside(c, g, idx);
      BlockInside(c', g', idx');
      hide BlockAt;
      PagesApart(c, c');
    }
  }

  lemma Difference(i: int, j: int, s: int)
    ensures j * s - i * s == s * (j - i)
  {
  }

  lemma PagesApart(c: nat, c': nat)
    requires c % PG_SIZE == 0 && c' % PG_SIZE == 0
    ensures c == c' || c + PG_SIZE <= c' || c' + PG_SIZE <= c
  {
    var d := c' / PG_SIZE - c / PG_SIZE;
    assert c' - c == PG_SIZE * d;
  }

  // ---------------------------------------------------------------- masks

  /** `a & b`. */
  function And(a: nat, b: nat): nat
    decreases a
  {
    if a == 0 then 0 else 2 * And(a / 2, b / 2) + (a % 2) * (b % 2)
  }

  /** A mask below a power of two that divides a finds nothing. */
  lemma {:induction false} MaskFindsNothing(a: nat, b: nat, k: nat)
    requires a % Pow2(k) == 0 && b < Pow2(k)
    ensures And(a, b) == 0
    decreases k
  {
    if k == 0 {
      AndZero(a);
    } else {
      var p := Pow2(k - 1);
      var q := a / Pow2(k);
      assert a == 2 * (p * q);
      assert a / 2 == q * p + 0;
      QuotientOf(q, 0, p);
      MaskFindsNothing(a / 2, b / 2, k - 1);
    }
  }

  lemma {:induction false} AndZero(a: nat)
    ensures And(a, 0) == 0
  {
    if a > 0 {
      AndZero(a / 2);
    }
  }

  /** For a power of two the mask test is divisibility. */
  lemma {:induction false} MaskTestsAlignment(a: nat, k: nat)
    ensures And(a, Pow2(k) - 1) == 0 <==> a % Pow2(k) == 0
    decreases k
  {
    if k == 0 {
      AndZero(a);
    } else {
      var p := Pow2(k - 1);
      MaskTestsAlignment(a / 2, k - 1);
      assert Pow2(k) == 2 * p;
      hide Pow2;
      AndOdd(a, p - 1);
      hide And;
      HalfDivides(a, p);
    }
  }

  lemma AndOdd(a: nat, b: nat)
    ensures And(a, 2 * b + 1) == 2 * And(a / 2, b) + a % 2
  {
    assert (2 * b + 1) / 2 == b && (2 * b + 1) % 2 == 1;
  }
}
