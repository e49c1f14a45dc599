/**
 Three-level page tables: a root, directory-pointer tables and directories, of 512 entries each, that map pages
 of 2 MiB. An entry packs the physical address of a table or frame with flags in its low 12 bits.
 */
module PageTable {
  import opened Constants
  import opened Options
  import opened Words

  const PT_SIZE: nat := 0x1000
  const ENTRIES: nat := 512

  /** Present, writable, user; and for a leaf also "2 MiB page". */
  const TABLE_FLAGS: nat := 0x07
  const PG_DEFAULT_FLAGS: nat := 0x87

  function Zeros(n: nat): (s: seq<Word>)
    ensures |s| == n && forall i :: 0 <= i < n ==> s[i] == 0
  {
    if n == 0 then [] else Zeros(n - 1) + [0]
  }

  // ---------------------------------------------------------------- entries and indices

  /** `entry & PG_P`. */
  predicate Present(e: Word) {
    e % 2 == 1
  }

  /** `entry & ~0xfff`. */
  function AddrOf(e: Word): Word {
    e - e % PT_SIZE
  }

  /** `addr | flags`, for an address whose low 12 bits are clear. */
  function Entry(addr: Word, flags: nat): (e: Word)
    requires addr % PT_SIZE == 0 && flags < PT_SIZE
    ensures AddrOf(e) == addr && (Present(e) <==> flags % 2 == 1)
  {
    addr + flags
  }

  /** `entry & ~PG_P`. */
  function Absent(e: Word): (r: Word)
    ensures !Present(r) && AddrOf(r) == AddrOf(e)
  {
    if Present(e) then e - 1 else e
  }

  /** The page of an address: `addr & ~(PG_SIZE - 1)`. */
  function PageOf(addr: Word): (r: Word)
    ensures r % PT_SIZE == 0 && r % PG_SIZE == 0 && r <= addr < r + PG_SIZE
  {
    addr - addr % PG_SIZE
  }

  /** The three indices that select a page; the 16 upper bits of an address take no part. */
  datatype Page = Page(i4: nat, i3: nat, i2: nat)

  ghost predicate IsPage(p: Page) {
    p.i4 < ENTRIES && p.i3 < ENTRIES && p.i2 < ENTRIES
  }

  function IndexOf(v: Word): (p: Page)
    ensures p.i4 < ENTRIES && p.i3 < ENTRIES && p.i2 < ENTRIES
  {
    Page(v / 0x80_0000_0000 % 512, v / 0x4000_0000 % 512, v / PG_SIZE % 512)
  }

  /** Addresses with the same indices are the same page, up to the bits that take no part. */
  lemma IndexIsPage(v: Word, w: Word)
    ensures IndexOf(v) == IndexOf(w) <==> v / PG_SIZE % 0x800_0000 == w / PG_SIZE % 0x800_0000
  {
    IndexSplits(v);
    IndexSplits(w);
    hide IndexOf;
    DigitsUnique(IndexOf(v), IndexOf(w));
  }

  /** Three digits are determined by the number they make. */
  lemma DigitsUnique(p: Page, q: Page)
    requires p.i4 < ENTRIES && p.i3 < ENTRIES && p.i2 < ENTRIES && q.i4 < ENTRIES && q.i3 < ENTRIES && q.i2 < ENTRIES
    ensures p.i4 * 0x4_0000 + p.i3 * 512 + p.i2 == q.i4 * 0x4_0000 + q.i3 * 512 + q.i2 ==> p == q
  {
    if p.i4 * 0x4_0000 + p.i3 * 512 + p.i2 == q.i4 * 0x4_0000 + q.i3 * 512 + q.i2 {
      LastDigitUnique(p.i4 * 512 + p.i3, p.i2, q.i4 * 512 + q.i3, q.i2);
      LastDigitUnique(p.i4, p.i3, q.i4, q.i3);
    }
  }

  lemma LastDigitUnique(a: nat, x: nat, b: nat, y: nat)
    requires x < 512 && y < 512 && a * 512 + x == b * 512 + y
    ensures a == b && x == y
  {
  }

  lemma IndexSplits(v: Word)
    ensures v / PG_SIZE % 0x800_0000 == IndexOf(v).i4 * 0x4_0000 + IndexOf(v).i3 * 512 + IndexOf(v).i2
  {
    var n := v / PG_SIZE;
    assert v / 0x4000_0000 == n / 512 && v / 0x80_0000_0000 == n / 512 / 512;
  }

  lemma PageOfIndex(v: Word)
    ensures IndexOf(PageOf(v)) == IndexOf(v)
  {
    assert PageOf(v) / PG_SIZE == v / PG_SIZE;
    assert PageOf(v) / 0x4000_0000 == v / PG_SIZE / 512 == v / 0x4000_0000;
    assert PageOf(v) / 0x80_0000_0000 == v / PG_SIZE / 512 / 512 == v / 0x80_0000_0000;
  }

  // ---------------------------------------------------------------- translation

  /** Memory, as far as it holds page tables: physical address to contents. */
  type Memory = map<Word, seq<Word>>

  predicate IsTable(mem: Memory, t: Word) {
    t in mem && |mem[t]| == ENTRIES
  }

  function EntryAt(mem: Memory, t: Word, i: nat): Word
    requires i < ENTRIES
  {
    if t in mem && i < |mem[t]| then mem[t][i] else 0
  }

  /** The table below entry i of table t. */
  function Below(mem: Memory, t: Word, i: nat): Option<Word>
    requires i < ENTRIES
  {
    var e := EntryAt(mem, t, i);
    if Present(e) then Some(AddrOf(e)) else None
  }

  /** The frame that a page is mapped to. */
  function Frame(mem: Memory, root: Word, p: Page): Option<Word>
    requires p.i4 < ENTRIES && p.i3 < ENTRIES && p.i2 < ENTRIES
  {
    match Below(mem, root, p.i4)
    case None => None
    case Some(pdpt) =>
      match Below(mem, pdpt, p.i3)
      case None => None
      case Some(pdt) => Below(mem, pdt, p.i2)
  }

  // ---------------------------------------------------------------- trees

  /** What a table is for. */
  datatype Node = Root | Pdpt(i4: nat) | Pdt(i4: nat, i3: nat)

  /**
   The tables below the first `half` entries of the root are private: `own` says what each of them is for, so
   that none has two uses; tables below the other entries are not among them. Every table referred to exists.
   */
  ghost predicate Tree(mem: Memory, root: Word, half: nat, own: map<Word, Node>) {
    && half <= ENTRIES && root in own && own[root] == Root
    && (forall a :: a in own ==> IsTable(mem, a) && Owned(mem, root, half, a, own[a]))
    && (forall i :: 0 <= i < ENTRIES ==> PdptOk(mem, root, half, own, i))
  }

  /** A table that is owned is where its node says. */
  ghost predicate Owned(mem: Memory, root: Word, half: nat, a: Word, n: Node)
    requires half <= ENTRIES
  {
    match n
    case Root => a == root
    case Pdpt(i) => i < half && Below(mem, root, i) == Some(a)
    case Pdt(i, j) =>
      i < half && j < ENTRIES && Below(mem, root, i).Some? && Below(mem, Below(mem, root, i).value, j) == Some(a)
  }

  ghost predicate PdptOk(mem: Memory, root: Word, half: nat, own: map<Word, Node>, i: nat)
    requires i < ENTRIES
  {
    Below(mem, root, i).Some? ==> PdptAt(mem, Below(mem, root, i).value, half, own, i)
  }

  ghost predicate PdptAt(mem: Memory, pdpt: Word, half: nat, own: map<Word, Node>, i: nat)
    requires i < ENTRIES
  {
    && pdpt in mem && (if i < half then pdpt in own && own[pdpt] == Pdpt(i) else pdpt !in own)
    && forall j :: 0 <= j < ENTRIES ==> PdtOk(mem, pdpt, half, own, i, j)
  }

  ghost predicate PdtOk(mem: Memory, pdpt: Word, half: nat, own: map<Word, Node>, i: nat, j: nat)
    requires j < ENTRIES
  {
    Below(mem, pdpt, j).Some? ==> PdtAt(mem, Below(mem, pdpt, j).value, half, own, i, j)
  }

  ghost predicate PdtAt(mem: Memory, pdt: Word, half: nat, own: map<Word, Node>, i: nat, j: nat) {
    pdt in mem && if i < half then pdt in own && own[pdt] == Pdt(i, j) else pdt !in own
  }

  // ---------------------------------------------------------------- changing entries

  function SetEntry(mem: Memory, t: Word, i: nat, e: Word): Memory
    requires IsTable(mem, t) && i < ENTRIES
  {
    mem[t := mem[t][..i] + [e] + mem[t][i + 1..]]
  }

  /** A new table is put below entry i of table t. */
  function WithTable(mem: Memory, t: Word, i: nat, page: Word): Memory
    requires IsTable(mem, t) && i < ENTRIES && page % PT_SIZE == 0
  {
    SetEntry(mem[page := Zeros(ENTRIES)], t, i, Entry(page, TABLE_FLAGS))
  }

  lemma BelowSet(mem: Memory, t: Word, i: nat, e: Word, t': Word, i': nat)
    requires IsTable(mem, t) && i < ENTRIES && i' < ENTRIES
    ensures Below(SetEntry(mem, t, i, e), t', i') ==
            if t' == t && i' == i then (if Present(e) then Some(AddrOf(e)) else None) else Below(mem, t', i')
  {
    hide Present, AddrOf;
  }

  lemma BelowNew(mem: Memory, t: Word, i: nat, page: Word, t': Word, i': nat)
    requires IsTable(mem, t) && i < ENTRIES && page % PT_SIZE == 0 && i' < ENTRIES && page !in mem
    ensures Below(WithTable(mem, t, i, page), t', i') ==
            if t' == t && i' == i then Some(page) else if t' == page then None else Below(mem, t', i')
  {
    BelowSet(mem[page := Zeros(ENTRIES)], t, i, Entry(page, TABLE_FLAGS), t', i');
    assert EntryAt(mem[page := Zeros(ENTRIES)], t', i') == if t' == page then 0 else EntryAt(mem, t', i');
    hide AddrOf;
  }

  /** A leaf of a private directory is set: one page changes. */
  lemma LeafSet(mem: Memory, root: Word, half: nat, own: map<Word, Node>, p: Page, e: Word, q: Page)
    requires Tree(mem, root, half, own) && p.i4 < half && p.i3 < ENTRIES && p.i2 < ENTRIES
    requires q.i4 < ENTRIES && q.i3 < ENTRIES && q.i2 < ENTRIES
    requires Below(mem, root, p.i4).Some? && Below(mem, Below(mem, root, p.i4).value, p.i3).Some?
    ensures var pdt := Below(mem, Below(mem, root, p.i4).value, p.i3).value;
            && IsTable(mem, pdt)
            && Frame(SetEntry(mem, pdt, p.i2, e), root, q) ==
               if q == p then (if Present(e) then Some(AddrOf(e)) else None) else Frame(mem, root, q)
  {
    assert PdptOk(mem, root, half, own, p.i4) && PdptOk(mem, root, half, own, q.i4);
    var pdpt := Below(mem, root, p.i4).value;
    assert PdtOk(mem, pdpt, half, own, p.i4, p.i3);
    var pdt := Below(mem, pdpt, p.i3).value;
    hide Below, Present, AddrOf, EntryAt;
    BelowSet(mem, pdt, p.i2, e, root, q.i4);
    if Below(mem, root, q.i4).Some? {
      var pdpt' := Below(mem, root, q.i4).value;
      BelowSet(mem, pdt, p.i2, e, pdpt', q.i3);
      assert PdtOk(mem, pdpt', half, own, q.i4, q.i3);
      if Below(mem, pdpt', q.i3).Some? {
        BelowSet(mem, pdt, p.i2, e, Below(mem, pdpt', q.i3).value, q.i2);
      }
    }
  }

  /** Changes below the directories leave the tree as it is. */
  lemma TreeSame(mem: Memory, mem': Memory, root: Word, half: nat, own: map<Word, Node>)
    requires Tree(mem, root, half, own) && mem'.Keys == mem.Keys && forall a :: a in mem ==> |mem'[a]| == |mem[a]|
    requires forall t, i :: 0 <= i < ENTRIES && (t !in own || !own[t].Pdt?) ==> Below(mem', t, i) == Below(mem, t, i)
    ensures Tree(mem', root, half, own)
  {
    hide Below;
    forall a | a in own
      ensures Owned(mem', root, half, a, own[a])
    {
      assert Owned(mem, root, half, a, own[a]);
      if own[a].Pdt? {
        assert PdptOk(mem, root, half, own, own[a].i4);
      }
    }
    forall i | 0 <= i < ENTRIES
      ensures PdptOk(mem', root, half, own, i)
    {
      assert PdptOk(mem, root, half, own, i);
      if Below(mem, root, i).Some? {
        var pdpt := Below(mem, root, i).value;
        forall j | 0 <= j < ENTRIES
          ensures PdtOk(mem', pdpt, half, own, i, j)
        {
          assert PdtOk(mem, pdpt, half, own, i, j);
        }
      }
    }
  }

  lemma LeafTree(mem: Memory, root: Word, half: nat, own: map<Word, Node>, p: Page, e: Word)
    requires Tree(mem, root, half, own) && p.i4 < half && p.i3 < ENTRIES && p.i2 < ENTRIES
    requires Below(mem, root, p.i4).Some? && Below(mem, Below(mem, root, p.i4).value, p.i3).Some?
    ensures var pdt := Below(mem, Below(mem, root, p.i4).value, p.i3).value;
            IsTable(mem, pdt) && Tree(SetEntry(mem, pdt, p.i2, e), root, half, own)
  {
    assert PdptOk(mem, root, half, own, p.i4);
    var pdpt := Below(mem, root, p.i4).value;
    assert PdtOk(mem, pdpt, half, own, p.i4, p.i3);
    var pdt := Below(mem, pdpt, p.i3).value;
    hide Below, Present, AddrOf, EntryAt, Tree;
    var mem' := SetEntry(mem, pdt, p.i2, e);
    forall t, i | 0 <= i < ENTRIES && (t !in own || !own[t].Pdt?)
      ensures Below(mem', t, i) == Below(mem, t, i)
    {
      BelowSet(mem, pdt, p.i2, e, t, i);
    }
    TreeSame(mem, mem', root, half, own);
  }

  // ---------------------------------------------------------------- new tables

  /** A new directory-pointer table below the root. */
  lemma NewPdpt(mem: Memory, root: Word, half: nat, own: map<Word, Node>, i: nat, page: Word)
    requires Tree(mem, root, half, own) && i < half && Below(mem, root, i) == None && page !in mem &&
             page % PT_SIZE == 0
    ensures IsTable(mem, root)
    ensures var mem' := WithTable(mem, root, i, page);
            && Tree(mem', root, half, own[page := Pdpt(i)]) && Below(mem', root, i) == Some(page)
  {
    var mem', own' := WithTable(mem, root, i, page), own[page := Pdpt(i)];
    forall t, k | 0 <= k < ENTRIES
      ensures Below(mem', t, k)
           == if t == root && k == i then Some(page) else if t == page then None else Below(mem, t, k)
    {
      BelowNew(mem, root, i, page, t, k);
    }
    hide Below, WithTable;
    forall a | a in own'
      ensures Owned(mem', root, half, a, own'[a])
    {
      if a != page {
        assert Owned(mem, root, half, a, own[a]);
        if own[a].Pdt? {
          assert PdptOk(mem, root, half, own, own[a].i4);
        }
      }
    }
    forall k | 0 <= k < ENTRIES
      ensures PdptOk(mem', root, half, own', k)
    {
      assert PdptOk(mem, root, half, own, k);
      var pdpt := if k == i then page else if Below(mem, root, k).Some? then Below(mem, root, k).value else root;
      forall j | 0 <= j < ENTRIES && k != i && Below(mem, root, k).Some?
        ensures PdtOk(mem', pdpt, half, own', k, j)
      {
        assert PdtOk(mem, pdpt, half, own, k, j);
      }
    }
  }

  /** A new directory below a private directory-pointer table. */
  lemma NewPdt(mem: Memory, root: Word, half: nat, own: map<Word, Node>, i: nat, j: nat, page: Word)
    requires Tree(mem, root, half, own) && i < half && j < ENTRIES && page !in mem && page % PT_SIZE == 0
    requires Below(mem, root, i).Some? && Below(mem, Below(mem, root, i).value, j) == None
    ensures var pdpt := Below(mem, root, i).value;
            && IsTable(mem, pdpt) && pdpt != root
            && var mem' := WithTable(mem, pdpt, j, page);
               && Tree(mem', root, half, own[page := Pdt(i, j)])
               && Below(mem', root, i) == Some(pdpt) && Below(mem', pdpt, j) == Some(page)
  {
    assert PdptOk(mem, root, half, own, i);
    var pdpt := Below(mem, root, i).value;
    var mem', own' := WithTable(mem, pdpt, j, page), own[page := Pdt(i, j)];
    forall t, k | 0 <= k < ENTRIES
      ensures Below(mem', t, k)
           == if t == pdpt && k == j then Some(page) else if t == page then None else Below(mem, t, k)
    {
      BelowNew(mem, pdpt, j, page, t, k);
    }
    hide Below, WithTable;
    forall a | a in own'
      ensures Owned(mem', root, half, a, own'[a])
    {
      if a != page {
        assert Owned(mem, root, half, a, own[a]);
        if own[a].Pdt? {
          assert PdptOk(mem, root, half, own, own[a].i4);
        }
      }
    }
    forall k | 0 <= k < ENTRIES
      ensures PdptOk(mem', root, half, own', k)
    {
      assert PdptOk(mem, root, half, own, k);
      if Below(mem, root, k).Some? {
        var pdpt' := Below(mem, root, k).value;
        forall l | 0 <= l < ENTRIES
          ensures PdtOk(mem', pdpt', half, own', k, l)
        {
          assert PdtOk(mem, pdpt', half, own, k, l);
        }
      }
    }
  }

  /** A new table, being empty, translates nothing: no page changes. */
  lemma NewTableFrames(mem: Memory, root: Word, half: nat, own: map<Word, Node>, t: Word, i: nat, page: Word, q: Page)
    requires Tree(mem, root, half, own) && IsTable(mem, t) && i < ENTRIES && Below(mem, t, i) == None
    requires page !in mem && page % PT_SIZE == 0 && t in own && !own[t].Pdt?
    requires q.i4 < ENTRIES && q.i3 < ENTRIES && q.i2 < ENTRIES
    ensures Frame(WithTable(mem, t, i, page), root, q) == Frame(mem, root, q)
  {
    var mem' := WithTable(mem, t, i, page);
    forall t', k | 0 <= k < ENTRIES
      ensures Below(mem', t', k)
           == if t' == t && k == i then Some(page) else if t' == page then None else Below(mem, t', k)
    {
      BelowNew(mem, t, i, page, t', k);
    }
    hide Below, WithTable;
    assert PdptOk(mem, root, half, own, q.i4);
    if Below(mem, root, q.i4).Some? {
      assert PdtOk(mem, Below(mem, root, q.i4).value, half, own, q.i4, q.i3);
    }
  }
}
