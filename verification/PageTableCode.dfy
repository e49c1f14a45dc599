/** Mapping, unmapping and looking up pages, as methods on memory, and the finite map that the tables stand for. */
module PageTableCode {
  import opened Words
  import opened Constants
  import opened Options
  import opened PageTable
  import opened PageTableRights

  /** The physical address that a virtual one translates to. */
  function Translate(mem: Memory, root: Word, v: Word): Option<Word> {
    match Frame(mem, root, IndexOf(v))
    case None => None
    case Some(frame) => Some(Wrap(frame + v % PG_SIZE))
  }

  ghost function AllPages(): set<Page> {
    set i, j, k | 0 <= i < ENTRIES && 0 <= j < ENTRIES && 0 <= k < ENTRIES :: Page(i, j, k)
  }

  /** The finite map from pages to frames. */
  ghost function View(mem: Memory, root: Word): map<Page, Word> {
    map p | p in AllPages() && IsPage(p) && Frame(mem, root, p).Some? :: Frame(mem, root, p).value
  }

  lemma ViewIs(mem: Memory, root: Word, p: Page)
    requires IsPage(p)
    ensures p in View(mem, root) <==> Frame(mem, root, p).Some?
    ensures p in View(mem, root) ==> View(mem, root)[p] == Frame(mem, root, p).value
  {
    assert p == Page(p.i4, p.i3, p.i2);
    hide Frame;
  }

  /** One page is set to a frame, all others are as they were. */
  ghost predicate OnePage(mem: Memory, mem': Memory, root: Word, p: Page, frame: Option<Word>) {
    forall q {:trigger Frame(mem', root, q)} :: IsPage(q) ==>
        Frame(mem', root, q) == if q == p then frame else Frame(mem, root, q)
  }

  lemma OnePageInView(mem: Memory, mem': Memory, root: Word, p: Page, frame: Option<Word>)
    requires IsPage(p) && OnePage(mem, mem', root, p, frame)
    ensures View(mem', root) == match frame case Some(f) => View(mem, root)[p := f] case None => View(mem, root) - {p}
  {
    hide Frame;
    var want := match frame case Some(f) => View(mem, root)[p := f] case None => View(mem, root) - {p};
    assert p in AllPages() by { ViewIs(mem, root, p); assert p == Page(p.i4, p.i3, p.i2); }
    forall q
      ensures q in View(mem', root) <==> q in want
      ensures q in want ==> View(mem', root)[q] == want[q]
    {
    }
  }

  class PageTables {
    var mem: Memory

    constructor (mem: Memory)
      ensures this.mem == mem
    {
      this.mem := mem;
    }

    /** to_physical_address; 0 is NULL. */
    method ToPhysicalAddress(root: Word, v: Word) returns (r: Word)
      ensures r == match Translate(mem, root, v) case None => 0 case Some(a) => a
    {
      hide Wrap, Present, AddrOf, IndexOf;
      var p := IndexOf(v);
      var e4 := EntryAt(mem, root, p.i4);
      if !Present(e4) {
        return 0;
      }
      var e3 := EntryAt(mem, AddrOf(e4), p.i3);
      if !Present(e3) {
        return 0;
      }
      var e2 := EntryAt(mem, AddrOf(e3), p.i2);
      if !Present(e2) {
        return 0;
      }
      r := Wrap(AddrOf(e2) + v % PG_SIZE);
    }

    /** `*entry = value`. */
    method Put(t: Word, i: nat, e: Word)
      requires IsTable(mem, t) && i < ENTRIES
      modifies this
      ensures mem == SetEntry(old(mem), t, i, e)
    {
      mem := mem[t := mem[t][..i] + [e] + mem[t][i + 1..]];
    }

    /** A zeroed table at `page` is put below entry i of table t. */
    method AddTable(t: Word, i: nat, page: Word)
      requires IsTable(mem, t) && i < ENTRIES && page % PT_SIZE == 0 && page !in mem
      modifies this
      ensures mem == WithTable(old(mem), t, i, page)
    {
      hide Entry;
      mem := mem[page := Zeros(ENTRIES)];
      Put(t, i, Entry(page, TABLE_FLAGS));
    }

    /** The directory-pointer table of an address, made if there is none. */
    method NeedPdpt(root: Word, i: nat, page: Word, ghost half: nat, ghost own: map<Word, Node>)
      returns (pdpt: Word, ghost own': map<Word, Node>)
      requires Tree(mem, root, half, own) && i < half && page !in mem && page % PT_SIZE == 0
      modifies this
      ensures Tree(mem, root, half, own') && Below(mem, root, i) == Some(pdpt)
      ensures SameFrames(old(mem), mem, root) && mem.Keys <= old(mem).Keys + {page}
      ensures SameRights(old(mem), mem, root) && (AllOpen(old(mem), root, half) ==> AllOpen(mem, root, half))
      ensures IsTable(mem, pdpt) && pdpt in own' && own'[pdpt] == Pdpt(i)
    {
      own' := own;
      if Below(mem, root, i) == None {
        NewPdpt(mem, root, half, own, i, page);
        NewFrames(mem, root, half, own, root, i, page);
        NewTableKeeps(mem, root, half, own, root, i, page);
        hide Tree, Below, Frame, WithTable, SameFrames, SameRights, AllOpen;
        own' := own[page := Pdpt(i)];
        AddKeys(mem, root, i, page);
        AddTable(root, i, page);
      }
      pdpt := AddrOf(EntryAt(mem, root, i));
      PdptOwned(mem, root, half, own', i);
    }

    method NeedPdt(root: Word, i: nat, pdpt: Word, j: nat, page: Word, ghost half: nat, ghost own: map<Word, Node>)
      returns (pdt: Word, ghost own': map<Word, Node>)
      requires Tree(mem, root, half, own) && i < half && j < ENTRIES && page !in mem && page % PT_SIZE == 0
      requires Below(mem, root, i) == Some(pdpt) && IsTable(mem, pdpt) && pdpt in own && own[pdpt] == Pdpt(i)
      modifies this
      ensures Tree(mem, root, half, own') && Below(mem, root, i) == Some(pdpt) && Below(mem, pdpt, j) == Some(pdt)
      ensures SameFrames(old(mem), mem, root)
      ensures SameRights(old(mem), mem, root) && (AllOpen(old(mem), root, half) ==> AllOpen(mem, root, half))
      ensures IsTable(mem, pdt)
    {
      own' := own;
      if Below(mem, pdpt, j) == None {
        NewPdt(mem, root, half, own, i, j, page);
        NewFrames(mem, root, half, own, pdpt, j, page);
        NewTableKeeps(mem, root, half, own, pdpt, j, page);
        hide Tree, Below, Frame, WithTable, SameFrames, SameRights, AllOpen;
        own' := own[page := Pdt(i, j)];
        AddTable(pdpt, j, page);
      }
      pdt := AddrOf(EntryAt(mem, pdpt, j));
      PdtOwned(mem, root, half, own', i, j);
    }

    /**
     page_map, with `newPdpt` and `newPdt` the zeroed tables that kmalloc would return. Exactly the page of
     vaddr changes: it now maps to the page of paddr. The tables stay a tree. With open tables above it the page is one
     of 2 MiB that a user program may read and write, and the tables stay open.
     */
    method PageMap(root: Word, paddr: Word, vaddr: Word, newPdpt: Word, newPdt: Word, ghost half: nat,
            ghost own: map<Word, Node>)
      returns (ghost own': map<Word, Node>)
      requires Tree(mem, root, half, own) && IndexOf(vaddr).i4 < half
      requires newPdpt !in mem && newPdt !in mem && newPdpt != newPdt && newPdpt % PT_SIZE == 0 && newPdt % PT_SIZE == 0
      modifies this
      ensures Tree(mem, root, half, own')
      ensures OnePage(old(mem), mem, root, IndexOf(vaddr), Some(PageOf(paddr)))
      ensures View(mem, root) == View(old(mem), root)[IndexOf(vaddr) := PageOf(paddr)]
      ensures OneRight(old(mem), mem, root, IndexOf(vaddr))
      ensures AllOpen(old(mem), root, half) ==>
                AllOpen(mem, root, half) && RightsOf(mem, root, IndexOf(vaddr)) == Some(Rights(true, true, true))
    {
      hide Tree, Below, Frame, SameFrames, OnePage, View, PageOf, Entry;
      hide RightsOf, SameRights, OneRight, AllOpen, Writable, ForUsers, Large;
      var frame, v := PageOf(paddr), PageOf(vaddr);
      PageOfIndex(vaddr);
      hide IndexOf;
      var p := IndexOf(v);
      var pdpt, own1 := NeedPdpt(root, p.i4, newPdpt, half, own);
      ghost var mem1 := mem;
      var pdt, own2 := NeedPdt(root, p.i4, pdpt, p.i3, newPdt, half, own1);
      own' := own2;
      ghost var mem2 := mem;
      LeafTree(mem2, root, half, own', p, Entry(frame, PG_DEFAULT_FLAGS));
      SetOnePage(mem2, root, half, own', p, Entry(frame, PG_DEFAULT_FLAGS));
      FlagsGrant(frame);
      LeafKeeps(mem2, root, half, own', p, Entry(frame, PG_DEFAULT_FLAGS));
      RightsAfter(old(mem), mem1, mem2, SetEntry(mem2, pdt, p.i2, Entry(frame, PG_DEFAULT_FLAGS)), root, p);
      Put(pdt, p.i2, Entry(frame, PG_DEFAULT_FLAGS));
      OnePageAfter(old(mem), mem1, mem2, mem, root, p, Some(frame));
      OnePageInView(old(mem), mem, root, p, Some(frame));
    }

    /** page_unmap: exactly the page of vaddr, which has to be mapped, is mapped no longer; others keep their rights. */
    method PageUnmap(root: Word, vaddr: Word, ghost half: nat, ghost own: map<Word, Node>)
      requires Tree(mem, root, half, own) && IndexOf(vaddr).i4 < half && Frame(mem, root, IndexOf(vaddr)).Some?
      modifies this
      ensures Tree(mem, root, half, own)
      ensures OnePage(old(mem), mem, root, IndexOf(vaddr), None)
      ensures View(mem, root) == View(old(mem), root) - {IndexOf(vaddr)}
      ensures OneRight(old(mem), mem, root, IndexOf(vaddr))
      ensures AllOpen(old(mem), root, half) ==> AllOpen(mem, root, half)
    {
      hide Tree, OnePage, View, Absent, PageOf, RightsOf, OneRight, AllOpen;
      var v := PageOf(vaddr);
      PageOfIndex(vaddr);
      hide IndexOf;
      var p := IndexOf(v);
      var pdpt := AddrOf(EntryAt(mem, root, p.i4));
      var pdt := AddrOf(EntryAt(mem, pdpt, p.i3));
      var e := Absent(EntryAt(mem, pdt, p.i2));
      hide Frame;
      LeafTree(mem, root, half, own, p, e);
      SetOnePage(mem, root, half, own, p, e);
      LeafKeeps(mem, root, half, own, p, e);
      Put(pdt, p.i2, e);
      OnePageInView(old(mem), mem, root, p, None);
    }
  }

  // ---------------------------------------------------------------- about the methods

  ghost predicate SameFrames(mem: Memory, mem': Memory, root: Word) {
    forall q {:trigger Frame(mem', root, q)} :: IsPage(q) ==> Frame(mem', root, q) == Frame(mem, root, q)
  }

  lemma NewFrames(mem: Memory, root: Word, half: nat, own: map<Word, Node>, t: Word, i: nat, page: Word)
    requires Tree(mem, root, half, own) && IsTable(mem, t) && i < ENTRIES && Below(mem, t, i) == None
    requires page !in mem && page % PT_SIZE == 0 && t in own && !own[t].Pdt?
    ensures SameFrames(mem, WithTable(mem, t, i, page), root)
  {
    hide Tree, Below, Frame, WithTable;
    forall q | IsPage(q)
      ensures Frame(WithTable(mem, t, i, page), root, q) == Frame(mem, root, q)
    {
      NewTableFrames(mem, root, half, own, t, i, page, q);
    }
  }

  lemma AddKeys(mem: Memory, t: Word, i: nat, page: Word)
    requires IsTable(mem, t) && i < ENTRIES && page % PT_SIZE == 0 && page !in mem
    ensures WithTable(mem, t, i, page).Keys == mem.Keys + {page}
  {
  }

  lemma PdptOwned(mem: Memory, root: Word, half: nat, own: map<Word, Node>, i: nat)
    requires Tree(mem, root, half, own) && i < half && Below(mem, root, i).Some?
    ensures var pdpt := Below(mem, root, i).value; IsTable(mem, pdpt) && pdpt in own && own[pdpt] == Pdpt(i)
    ensures Below(mem, root, i) == Some(AddrOf(EntryAt(mem, root, i)))
  {
    assert PdptOk(mem, root, half, own, i);
  }

  lemma PdtOwned(mem: Memory, root: Word, half: nat, own: map<Word, Node>, i: nat, j: nat)
    requires Tree(mem, root, half, own) && i < half && j < ENTRIES && Below(mem, root, i).Some?
    requires Below(mem, Below(mem, root, i).value, j).Some?
    ensures var pdpt := Below(mem, root, i).value;
            var pdt := Below(mem, pdpt, j).value;
            IsTable(mem, pdt) && pdt in own && own[pdt] == Pdt(i, j) && pdt == AddrOf(EntryAt(mem, pdpt, j))
  {
    assert PdptOk(mem, root, half, own, i);
    assert PdtOk(mem, Below(mem, root, i).value, half, own, i, j);
  }

  lemma SetOnePage(mem: Memory, root: Word, half: nat, own: map<Word, Node>, p: Page, e: Word)
    requires Tree(mem, root, half, own) && p.i4 < half && IsPage(p)
    requires Below(mem, root, p.i4).Some? && Below(mem, Below(mem, root, p.i4).value, p.i3).Some?
    ensures var pdt := Below(mem, Below(mem, root, p.i4).value, p.i3).value;
            && IsTable(mem, pdt)
            && OnePage(mem, SetEntry(mem, pdt, p.i2, e), root, p, if Present(e) then Some(AddrOf(e)) else None)
  {
    hide Tree, Below, Frame, SetEntry, Present, AddrOf;
    LeafSet(mem, root, half, own, p, e, p);
    forall q {:trigger Frame(SetEntry(mem, Below(mem, Below(mem, root, p.i4).value, p.i3).value, p.i2, e), root, q)}
      | IsPage(q)
      ensures Frame(SetEntry(mem, Below(mem, Below(mem, root, p.i4).value, p.i3).value, p.i2, e), root, q) ==
              if q == p then (if Present(e) then Some(AddrOf(e)) else None) else Frame(mem, root, q)
    {
      LeafSet(mem, root, half, own, p, e, q);
    }
  }

  lemma OnePageAfter(mem: Memory, mem1: Memory, mem2: Memory, mem3: Memory, root: Word, p: Page, frame: Option<Word>)
    requires SameFrames(mem, mem1, root) && SameFrames(mem1, mem2, root) && OnePage(mem2, mem3, root, p, frame)
    ensures OnePage(mem, mem3, root, p, frame)
  {
    hide Frame;
    forall q {:trigger Frame(mem3, root, q)} | IsPage(q)
      ensures Frame(mem3, root, q) == if q == p then frame else Frame(mem, root, q)
    {
      assert Frame(mem1, root, q) == Frame(mem, root, q) && Frame(mem2, root, q) == Frame(mem1, root, q);
    }
  }

  /** After mapping, every address of the page translates to the frame plus its offset, and no other address changes. */
  lemma OnePageTranslates(mem: Memory, mem': Memory, root: Word, v: Word, frame: Word, w: Word)
    requires OnePage(mem, mem', root, IndexOf(v), Some(frame)) && frame % PG_SIZE == 0
    ensures Translate(mem', root, w) ==
            if IndexOf(w) == IndexOf(v) then Some(frame + w % PG_SIZE) else Translate(mem, root, w)
  {
    hide Frame, IndexOf;
    assert Frame(mem', root, IndexOf(w))
        == if IndexOf(w) == IndexOf(v) then Some(frame) else Frame(mem, root, IndexOf(w));
    WrapSmall(frame + w % PG_SIZE);
  }
}
