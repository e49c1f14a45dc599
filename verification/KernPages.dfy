/**
 Giving a page back, across the range tables, the page tables and the physical allocator.
 */
module KernPages {
  import opened Constants
  import opened Options
  import opened Words
  import opened PageTable
  import opened PageTableCode
  import PhysPages
  import Bitmap
  import KernMem
  import KernMemRuns

  /** The private part of the map from pages to frames. */
  ghost function UserView(mem: Memory, root: Word, half: nat): map<Page, Word> {
    map p | p in View(mem, root) && p.i4 < half :: View(mem, root)[p]
  }

  /** Every frame mapped is a page of memory that is marked in use, and no frame is mapped twice. */
  ghost predicate Backed(view: map<Page, Word>, bits: seq<bool>) {
    && (forall p :: p in view ==>
          && view[p] % PG_SIZE == 0 && 0 < view[p] / PG_SIZE < |bits|
          && !bits[view[p] / PG_SIZE])
    && (forall p, q :: p in view && q in view && p != q ==> view[p] != view[q])
  }

  /** The page goes back: it leaves the map, and its frame is free. */
  lemma FrameGoesBack(view: map<Page, Word>, bits: seq<bool>, p: Page)
    requires Backed(view, bits) && p in view
    ensures var bits' := PhysPages.Fill(bits, view[p] / PG_SIZE, 1, true);
            && Backed(view - {p}, bits')
            && bits'[view[p] / PG_SIZE]
            && PhysPages.Count(bits') + |view - {p}| == PhysPages.Count(bits) + |view|
  {
    var k := view[p] / PG_SIZE;
    assert PhysPages.Fill(bits, k, 1, true) == bits[k := true];
    PhysPages.CountUpdate(bits, k, true);
    assert (view - {p}).Keys == view.Keys - {p};
    assert |view.Keys| == |view| && |(view - {p}).Keys| == |view - {p}|;
  }

  lemma UserViewIs(mem: Memory, mem': Memory, root: Word, half: nat, p: Page)
    requires View(mem', root) == View(mem, root) - {p}
    ensures UserView(mem', root, half) == UserView(mem, root, half) - {p}
  {
    hide View;
  }

  lemma TranslatesToFrame(mem: Memory, root: Word, half: nat, v: Word, bits: seq<bool>)
    requires v % PG_SIZE == 0 && IndexOf(v) in UserView(mem, root, half) && Backed(UserView(mem, root, half), bits)
    ensures var frame := UserView(mem, root, half)[IndexOf(v)];
            && Frame(mem, root, IndexOf(v)) == Some(frame) && Translate(mem, root, v) == Some(frame)
            && frame != 0 && frame % PG_SIZE == 0 && IndexOf(v).i4 < half
  {
    hide Frame, IndexOf;
    ViewIs(mem, root, IndexOf(v));
    WrapSmall(UserView(mem, root, half)[IndexOf(v)]);
  }

  class Process {
    const space: KernMem.AddressSpace
    const tables: PageTables
    const phys: PhysPages.PageAllocator
    const root: Word
    const half: nat

    ghost predicate Valid(own: map<Word, Node>)
      reads space.free, space.used, space.free.blocks, space.used.blocks, tables, phys, phys.bitmap, phys.bitmap.bytes
    {
      && phys.bitmap.bytes as object != space.free.blocks as object
      && phys.bitmap.bytes as object != space.used.blocks as object
      && space.Valid() && phys.Valid()
      && Tree(tables.mem, root, half, own)
      && Backed(UserView(tables.mem, root, half), phys.Bits())
    }

    constructor (space: KernMem.AddressSpace, tables: PageTables, phys: PhysPages.PageAllocator, root: Word, half: nat,
                 ghost own: map<Word, Node>)
      requires phys.bitmap.bytes as object != space.free.blocks as object
      requires phys.bitmap.bytes as object != space.used.blocks as object
      requires space.Valid() && phys.Valid() && Tree(tables.mem, root, half, own)
      requires Backed(UserView(tables.mem, root, half), phys.Bits())
      ensures this.space == space && this.tables == tables && this.phys == phys && this.root == root &&
              this.half == half
      ensures Valid(own)
    {
      this.space, this.tables, this.phys, this.root, this.half := space, tables, phys, root, half;
    }

    /** The second half of kern_free_page: the frame goes back to the allocator and the page leaves the tables. */
    method ReleaseFrame(vaddr: Word, paddr: Word, ghost own: map<Word, Node>)
      requires phys.Valid() && Tree(tables.mem, root, half, own) &&
               Backed(UserView(tables.mem, root, half), phys.Bits())
      requires vaddr % PG_SIZE == 0 && IndexOf(vaddr) in UserView(tables.mem, root, half)
      requires paddr == UserView(tables.mem, root, half)[IndexOf(vaddr)]
      modifies tables, phys, phys.bitmap.bytes
      ensures phys.Valid() && Tree(tables.mem, root, half, own)
      ensures Backed(UserView(tables.mem, root, half), phys.Bits())
      ensures UserView(tables.mem, root, half) == old(UserView(tables.mem, root, half)) - {IndexOf(vaddr)}
      ensures phys.Bits() == PhysPages.Fill(old(phys.Bits()), paddr / PG_SIZE, 1, true)
      ensures phys.freePages == Wrap(old(phys.freePages) + 1)
      ensures PhysPages.Count(phys.Bits()) + |UserView(tables.mem, root, half)|
           == old(PhysPages.Count(phys.Bits()) + |UserView(tables.mem, root, half)|)
    {
      hide Tree, IndexOf, Frame, View, UserView, Translate, Backed, PhysPages.Fill, PhysPages.Count, Wrap;
      hide PhysPages.PageAllocator.Bits, PhysPages.PageAllocator.Valid;
      ghost var p := IndexOf(vaddr);
      TranslatesToFrame(tables.mem, root, half, vaddr, phys.Bits());
      FrameGoesBack(UserView(tables.mem, root, half), phys.Bits(), p);
      phys.Free(paddr, 1);
      tables.PageUnmap(root, vaddr, half, own);
      UserViewIs(old(tables.mem), tables.mem, root, half, p);
    }

    /**
     kern_free_page of a page that is mapped. It leaves the page tables and its frame is free again, whatever the
     range tables do; these stay a partition exactly when the page was in use and had room to go back, or neither
     of them was touched.
     */
    method FreePage(vaddr: Word, ghost own: map<Word, Node>)
      requires Valid(own)
      requires vaddr % PG_SIZE == 0 && IndexOf(vaddr) in UserView(tables.mem, root, half)
      modifies space.free, space.used, space.free.blocks, space.used.blocks, tables, phys, phys.bitmap.bytes
      ensures Valid(own)
      ensures space.Abstract() == KernMem.Freed(old(space.Abstract()), vaddr)
      ensures old(KernMem.Partition(space.Abstract())) ==>
                (KernMem.Partition(space.Abstract()) <==>
                 KernMem.GoesBack(old(space.Abstract()), vaddr) || KernMem.BothRefused(old(space.Abstract()), vaddr))
      ensures UserView(tables.mem, root, half) == old(UserView(tables.mem, root, half)) - {IndexOf(vaddr)}
      ensures phys.Bits()
           == PhysPages.Fill(old(phys.Bits()), old(UserView(tables.mem, root, half))[IndexOf(vaddr)] / PG_SIZE, 1, true)
      ensures phys.freePages == Wrap(old(phys.freePages) + 1)
      ensures PhysPages.Count(phys.Bits()) + |UserView(tables.mem, root, half)|
           == old(PhysPages.Count(phys.Bits()) + |UserView(tables.mem, root, half)|)
    {
      hide Tree, IndexOf, Frame, View, UserView, Translate, Backed, PhysPages.Fill, PhysPages.Count, Wrap;
      hide KernMem.Partition, KernMem.GoesBack, KernMem.BothRefused, KernMem.Freed;
      hide KernMem.AddressSpace.Abstract, KernMem.AddressSpace.Valid;
      hide PhysPages.PageAllocator.Bits, PhysPages.PageAllocator.Valid;
      if KernMem.Partition(space.Abstract()) {
        KernMem.FreeingAnyAddress(space.Abstract(), vaddr);
      }
      TranslatesToFrame(tables.mem, root, half, vaddr, phys.Bits());
      var paddr := tables.ToPhysicalAddress(root, vaddr);
      space.FreePage(vaddr);
      ReleaseFrame(vaddr, paddr, own);
    }
  }

  // ---------------------------------------------------------------- such a page exists

  const FIRST_TABLES: Memory := map[0x1000 := Zeros(ENTRIES)]
  const FIRST_OWN: map<Word, Node> := map[0x1000 := Root]

  lemma NothingMapped()
    ensures Tree(FIRST_TABLES, 0x1000, 256, FIRST_OWN) && View(FIRST_TABLES, 0x1000) == map[]
  {
    forall i: nat | i < ENTRIES
      ensures Below(FIRST_TABLES, 0x1000, i) == None
    {
      assert EntryAt(FIRST_TABLES, 0x1000, i) == 0;
    }
    hide Below, Zeros;
    forall p | IsPage(p)
      ensures p !in View(FIRST_TABLES, 0x1000)
    {
      ViewIs(FIRST_TABLES, 0x1000, p);
    }
  }

  /** One page of eight is in use: the first. */
  lemma FirstBits(bits: seq<bool>, at: nat)
    requires |bits| == 8 && !bits[0] && bits[1]
    ensures Bitmap.HasRun(bits, true, 1)
    ensures Bitmap.LeastRun(bits, true, at, 1) ==> 0 < at < 8
  {
    assert Bitmap.Run(bits, true, 1, 1);
  }

  lemma FirstByte(b: bv8)
    requires b == 0xFE
    ensures !Bitmap.Bit(b, 0) && Bitmap.Bit(b, 1)
  {
  }

  lemma OneFrameBacked(p: Page, frame: Word, bits: seq<bool>)
    requires frame % PG_SIZE == 0 && 0 < frame / PG_SIZE < |bits| && !bits[frame / PG_SIZE]
    ensures Backed(map[p := frame], bits)
  {
  }

  lemma OnlyPageInView(mem: Memory, root: Word, p: Page, frame: Word)
    requires View(mem, root) == map[p := frame] && p.i4 < 256
    ensures UserView(mem, root, 256) == map[p := frame]
  {
    hide View;
  }

  lemma FirstAddress()
    ensures IndexOf(KernMem.USER_VADDR_START).i4 == 0 && KernMem.USER_VADDR_START % PG_SIZE == 0
  {
  }

  lemma FrameIsPage(frame: Word)
    requires frame % PG_SIZE == 0
    ensures PageOf(frame) == frame
  {
  }

  method NewFrame() returns (phys: PhysPages.PageAllocator, frame: Word)
    ensures fresh(phys) && fresh(phys.bitmap) && fresh(phys.bitmap.bytes) && phys.Valid()
    ensures frame % PG_SIZE == 0 && 0 < frame / PG_SIZE < |phys.Bits()| && !phys.Bits()[frame / PG_SIZE]
  {
    var bytes := new bv8[1](_ => 0xFE);
    var bitmap := new Bitmap.BitMap(bytes, 1);
    phys := new PhysPages.PageAllocator(bitmap, 7);
    ghost var bits := phys.Bits();
    FirstByte(bytes[0]);
    assert |bits| == 8 && !bits[0] && bits[1];
    hide Bitmap.HasRun, Bitmap.LeastRun, Bitmap.Bit;
    var granted, paddr := phys.AllocSub(1);
    FirstBits(bits, paddr / PG_SIZE);
    frame := paddr;
  }

  method NewSpace(total: nat) returns (space: KernMem.AddressSpace)
    requires 0 < total
    ensures fresh(space.free) && fresh(space.used) && fresh(space.free.blocks) && fresh(space.used.blocks)
    ensures space.Valid() && space.Abstract() == KernMemRuns.Grown(1, total)
  {
    hide KernMem.Allocated, KernMem.Boot, KernMemRuns.Grown, KernMem.AddressSpace.Abstract;
    space := new KernMem.AddressSpace(total);
    KernMemRuns.GrowsFirst(total);
    var ok, v := space.AllocatePage();
  }

  method NewTables(vaddr: Word, frame: Word) returns (tables: PageTables, ghost own: map<Word, Node>)
    requires frame % PG_SIZE == 0 && IndexOf(vaddr).i4 < 256
    ensures fresh(tables) && Tree(tables.mem, 0x1000, 256, own)
    ensures UserView(tables.mem, 0x1000, 256) == map[IndexOf(vaddr) := frame]
  {
    hide Tree, View, UserView, IndexOf, PageOf, OnePage;
    tables := new PageTables(FIRST_TABLES);
    NothingMapped();
    FrameIsPage(frame);
    own := tables.PageMap(0x1000, frame, vaddr, 0x2000, 0x3000, 256, FIRST_OWN);
    OnlyPageInView(tables.mem, 0x1000, IndexOf(vaddr), frame);
  }

  /** A process with one page in use and mapped, which FreePage can be asked to give back. */
  method FirstMapped(total: nat) returns (pr: Process, vaddr: Word, ghost own: map<Word, Node>)
    requires 1 < total
    ensures pr.Valid(own) && vaddr % PG_SIZE == 0 && IndexOf(vaddr) in UserView(pr.tables.mem, pr.root, pr.half)
    ensures KernMem.Partition(pr.space.Abstract()) && KernMem.GoesBack(pr.space.Abstract(), vaddr)
  {
    hide Tree, View, UserView, Backed, IndexOf, PhysPages.Fill;
    hide KernMem.Partition, KernMem.GoesBack, KernMemRuns.Grown;
    hide KernMem.AddressSpace.Abstract, PhysPages.PageAllocator.Bits;
    vaddr := KernMem.USER_VADDR_START;
    FirstAddress();
    KernMemRuns.FirstPage(total);
    var space := NewSpace(total);
    var phys, frame := NewFrame();
    var tables, own1 := NewTables(vaddr, frame);
    OneFrameBacked(IndexOf(vaddr), frame, phys.Bits());
    own := own1;
    pr := new Process(space, tables, phys, 0x1000, 256, own);
  }
}
