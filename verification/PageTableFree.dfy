/** Tearing down the private half of a page table: what is released, how often, and what is left alone. */
module PageTableFree {
  import opened Words
  import opened Sequences
  import opened Options
  import opened PageTable

  const USER_ENTRIES: nat := 256

  // ---------------------------------------------------------------- what is released

  /** The frames of the present leaves among the first n of directory pdt. */
  function Frames2(mem: Memory, pdt: Word, n: nat): seq<Word>
    requires n <= ENTRIES
  {
    if n == 0 then []
    else Frames2(mem, pdt, n - 1) + if Present(EntryAt(mem, pdt, n - 1)) then [AddrOf(EntryAt(mem, pdt, n - 1))] else []
  }

  function Frames3(mem: Memory, pdpt: Word, n: nat): seq<Word>
    requires n <= ENTRIES
  {
    if n == 0 then []
    else Frames3(mem, pdpt, n - 1)
         + if Present(EntryAt(mem, pdpt, n - 1)) then Frames2(mem, AddrOf(EntryAt(mem, pdpt, n - 1)), ENTRIES) else []
  }

  function Frames4(mem: Memory, root: Word, n: nat): seq<Word>
    requires n <= ENTRIES
  {
    if n == 0 then []
    else Frames4(mem, root, n - 1)
         + if Present(EntryAt(mem, root, n - 1)) then Frames3(mem, AddrOf(EntryAt(mem, root, n - 1)), ENTRIES) else []
  }

  /** The directories below the first n entries of a directory-pointer table. */
  function Tables3(mem: Memory, pdpt: Word, n: nat): seq<Word>
    requires n <= ENTRIES
  {
    if n == 0 then []
    else Tables3(mem, pdpt, n - 1)
         + if Present(EntryAt(mem, pdpt, n - 1)) then [AddrOf(EntryAt(mem, pdpt, n - 1))] else []
  }

  /** All tables below the first n entries of the root, in the order in which they are freed. */
  function Tables4(mem: Memory, root: Word, n: nat): seq<Word>
    requires n <= ENTRIES
  {
    if n == 0 then []
    else Tables4(mem, root, n - 1) + TablesAt(mem, root, n - 1)
  }

  function TablesAt(mem: Memory, root: Word, i: nat): seq<Word>
    requires i < ENTRIES
  {
    var e := EntryAt(mem, root, i);
    if Present(e) then Tables3(mem, AddrOf(e), ENTRIES) + [AddrOf(e)] else []
  }

  // ---------------------------------------------------------------- the code

  /**
   Memory and what has been released so far. A table handed to kfree is gone from memory, so that no method below
   can read one that was freed, or free one twice.
   */
  class PageTables {
    var mem: Memory
    var frames: seq<Word>
    var tables: seq<Word>

    constructor (mem: Memory)
      ensures this.mem == mem && frames == [] && tables == []
    {
      this.mem, frames, tables := mem, [], [];
    }

    method Kfree(t: Word)
      requires t in mem
      modifies this
      ensures mem == old(mem) - {t} && tables == old(tables) + [t] && frames == old(frames)
    {
      mem := mem - {t};
      tables := tables + [t];
    }

    method FreePdt(pdt: Word)
      requires IsTable(mem, pdt)
      modifies this
      ensures frames == old(frames) + Frames2(old(mem), pdt, ENTRIES)
      ensures mem == old(mem) - {pdt} && tables == old(tables) + [pdt]
    {
      hide Present, AddrOf;
      var i := 0;
      while i < ENTRIES
        invariant i <= ENTRIES && mem == old(mem) && tables == old(tables)
        invariant frames == old(frames) + Frames2(mem, pdt, i)
      {
        var e := EntryAt(mem, pdt, i);
        if Present(e) {
          frames := frames + [AddrOf(e)];
        }
        i := i + 1;
      }
      Kfree(pdt);
    }

    method FreePdpt(pdpt: Word)
      requires IsTable(mem, pdpt) && Branches(mem, pdpt, ENTRIES)
      modifies this
      ensures frames == old(frames) + Frames3(old(mem), pdpt, ENTRIES)
      ensures tables == old(tables) + Tables3(old(mem), pdpt, ENTRIES) + [pdpt]
      ensures mem == old(mem) - (set t | t in Tables3(old(mem), pdpt, ENTRIES)) - {pdpt}
    {
      hide Present, AddrOf, EntryAt, Frames2;
      ghost var m := mem;
      var i := 0;
      while i < ENTRIES
        invariant i <= ENTRIES && mem == m - (set t | t in Tables3(m, pdpt, i))
        invariant frames == old(frames) + Frames3(m, pdpt, i) && tables == old(tables) + Tables3(m, pdpt, i)
        invariant pdpt !in Tables3(m, pdpt, i)
      {
        BranchNext(m, mem, pdpt, i);
        var e := EntryAt(mem, pdpt, i);
        if Present(e) {
          FreePdt(AddrOf(e));
        }
        i := i + 1;
      }
      Kfree(pdpt);
    }

    /** free_page_table: the user half, that is the first 256 entries of the root, and the root. */
    method FreePageTable(root: Word, ghost own: map<Word, Node>)
      requires Tree(mem, root, USER_ENTRIES, own)
      modifies this
      ensures frames == old(frames) + Frames4(old(mem), root, USER_ENTRIES)
      ensures tables == old(tables) + Tables4(old(mem), root, USER_ENTRIES) + [root]
      ensures mem == old(mem) - (set t | t in Tables4(old(mem), root, USER_ENTRIES)) - {root}
    {
      hide Present, AddrOf, EntryAt, Frames3, Tree, Tables3, Frames2, Frames4, Tables4, TablesAt;
      ghost var m := mem;
      var i := 0;
      ReleasedNone(m, root);
      while i < USER_ENTRIES
        invariant i <= USER_ENTRIES && mem == m - (set t | t in Tables4(m, root, i))
        invariant frames == old(frames) + Frames4(m, root, i) && tables == old(tables) + Tables4(m, root, i)
      {
        UserNext(m, mem, root, own, i);
        ReleasedStep(m, root, i);
        var e := EntryAt(mem, root, i);
        if Present(e) {
          FreePdpt(AddrOf(e));
        }
        i := i + 1;
      }
      RootKept(m, root, own);
      Kfree(root);
    }
  }

  /** The first n directories of a directory-pointer table are different tables, all there, and not itself. */
  ghost predicate Branches(mem: Memory, pdpt: Word, n: nat)
    requires n <= ENTRIES
  {
    && (forall i :: 0 <= i < n && Present(EntryAt(mem, pdpt, i)) ==>
         IsTable(mem, AddrOf(EntryAt(mem, pdpt, i))) && AddrOf(EntryAt(mem, pdpt, i)) != pdpt)
    && (forall i, j :: 0 <= i < j < n && Present(EntryAt(mem, pdpt, i)) && Present(EntryAt(mem, pdpt, j)) ==>
         AddrOf(EntryAt(mem, pdpt, i)) != AddrOf(EntryAt(mem, pdpt, j)))
  }

  lemma {:induction false} Tables3Has(mem: Memory, pdpt: Word, n: nat, t: Word)
    requires n <= ENTRIES
    ensures t in Tables3(mem, pdpt, n) <==>
            exists j :: 0 <= j < n && Present(EntryAt(mem, pdpt, j)) && AddrOf(EntryAt(mem, pdpt, j)) == t
  {
    hide Present, AddrOf, EntryAt;
    if n > 0 {
      Tables3Has(mem, pdpt, n - 1, t);
    }
  }

  /** While the directories before i are being freed, entry i and its directory are still there, unchanged. */
  lemma BranchNext(m: Memory, mem: Memory, pdpt: Word, i: nat)
    requires i < ENTRIES && Branches(m, pdpt, ENTRIES) && IsTable(m, pdpt)
    requires mem == m - (set t | t in Tables3(m, pdpt, i))
    ensures IsTable(mem, pdpt) && EntryAt(mem, pdpt, i) == EntryAt(m, pdpt, i)
    ensures var e := EntryAt(mem, pdpt, i);
            Present(e) ==>
              && IsTable(mem, AddrOf(e)) && AddrOf(e) != pdpt
              && Frames2(mem, AddrOf(e), ENTRIES) == Frames2(m, AddrOf(e), ENTRIES)
  {
    Tables3Has(m, pdpt, i, pdpt);
    assert EntryAt(mem, pdpt, i) == EntryAt(m, pdpt, i);
    hide Present, AddrOf;
    var t := AddrOf(EntryAt(m, pdpt, i));
    Tables3Has(m, pdpt, i, t);
    if Present(EntryAt(m, pdpt, i)) {
      Frames2Same(m, mem, t, ENTRIES);
    }
  }

  lemma {:induction false} Frames2Same(m: Memory, m': Memory, pdt: Word, n: nat)
    requires n <= ENTRIES && pdt in m && pdt in m' && m'[pdt] == m[pdt]
    ensures Frames2(m', pdt, n) == Frames2(m, pdt, n)
  {
    if n > 0 {
      Frames2Same(m, m', pdt, n - 1);
    }
  }

  // ---------------------------------------------------------------- the walk over the root

  /** A table freed for entry k is one that is owned for entry k. */
  lemma TablesAtOwned(mem: Memory, root: Word, own: map<Word, Node>, k: nat, t: Word)
    requires Tree(mem, root, USER_ENTRIES, own) && k < USER_ENTRIES
    ensures t in TablesAt(mem, root, k) <==> t in own && own[t] != Root && own[t].i4 == k
  {
    assert PdptOk(mem, root, USER_ENTRIES, own, k);
    assert t in own ==> Owned(mem, root, USER_ENTRIES, t, own[t]);
    if Below(mem, root, k).Some? {
      var pdpt := Below(mem, root, k).value;
      Tables3Has(mem, pdpt, ENTRIES, t);
      hide Tree, Present, AddrOf, EntryAt;
      if t in Tables3(mem, pdpt, ENTRIES) {
        var j :| 0 <= j < ENTRIES && Present(EntryAt(mem, pdpt, j)) && AddrOf(EntryAt(mem, pdpt, j)) == t;
        assert PdtOk(mem, pdpt, USER_ENTRIES, own, k, j);
      }
    }
  }

  lemma {:induction false} Tables4Owned(mem: Memory, root: Word, own: map<Word, Node>, n: nat, t: Word)
    requires Tree(mem, root, USER_ENTRIES, own) && n <= USER_ENTRIES
    ensures t in Tables4(mem, root, n) <==> t in own && own[t] != Root && own[t].i4 < n
  {
    hide Tree, TablesAt, Tables3;
    if n > 0 {
      Tables4Owned(mem, root, own, n - 1, t);
      TablesAtOwned(mem, root, own, n - 1, t);
    }
  }

  lemma ReleasedNone(m: Memory, root: Word)
    ensures Frames4(m, root, 0) == [] && Tables4(m, root, 0) == []
  {
  }

  lemma ReleasedStep(m: Memory, root: Word, i: nat)
    requires i < ENTRIES
    ensures var e := EntryAt(m, root, i);
            && Frames4(m, root, i + 1)
               == Frames4(m, root, i) + (if Present(e) then Frames3(m, AddrOf(e), ENTRIES) else [])
            && Tables4(m, root, i + 1) ==
               Tables4(m, root, i) + (if Present(e) then Tables3(m, AddrOf(e), ENTRIES) + [AddrOf(e)] else [])
  {
    hide Frames3, Tables3;
  }

  lemma RootKept(m: Memory, root: Word, own: map<Word, Node>)
    requires Tree(m, root, USER_ENTRIES, own)
    ensures root in m && root !in Tables4(m, root, USER_ENTRIES)
  {
    Tables4Owned(m, root, own, USER_ENTRIES, root);
  }

  /** While the tables before entry i are being freed, all below entry i is still there, unchanged. */
  lemma UserNext(m: Memory, mem: Memory, root: Word, own: map<Word, Node>, i: nat)
    requires Tree(m, root, USER_ENTRIES, own) && i < USER_ENTRIES
    requires mem == m - (set t | t in Tables4(m, root, i))
    ensures EntryAt(mem, root, i) == EntryAt(m, root, i)
    ensures var e := EntryAt(mem, root, i);
            Present(e) ==>
              && IsTable(mem, AddrOf(e)) && Branches(mem, AddrOf(e), ENTRIES)
              && Frames3(mem, AddrOf(e), ENTRIES) == Frames3(m, AddrOf(e), ENTRIES)
              && Tables3(mem, AddrOf(e), ENTRIES) == Tables3(m, AddrOf(e), ENTRIES)
  {
    Tables4Owned(m, root, own, i, root);
    assert PdptOk(m, root, USER_ENTRIES, own, i);
    assert EntryAt(mem, root, i) == EntryAt(m, root, i);
    if Present(EntryAt(m, root, i)) {
      var pdpt := AddrOf(EntryAt(m, root, i));
      Tables4Owned(m, root, own, i, pdpt);
      forall j | 0 <= j < ENTRIES && Present(EntryAt(m, pdpt, j))
        ensures AddrOf(EntryAt(m, pdpt, j)) in own && own[AddrOf(EntryAt(m, pdpt, j))] == Pdt(i, j)
        ensures IsTable(m, AddrOf(EntryAt(m, pdpt, j))) && AddrOf(EntryAt(m, pdpt, j)) !in Tables4(m, root, i)
      {
        assert PdtOk(m, pdpt, USER_ENTRIES, own, i, j);
        Tables4Owned(m, root, own, i, AddrOf(EntryAt(m, pdpt, j)));
      }
      hide Tree, Present, AddrOf;
      assert forall j :: 0 <= j < ENTRIES ==> EntryAt(mem, pdpt, j) == EntryAt(m, pdpt, j);
      hide EntryAt;
      BelowSame(m, mem, pdpt, ENTRIES);
    }
  }

  lemma {:induction false} BelowSame(m: Memory, mem: Memory, pdpt: Word, n: nat)
    requires n <= ENTRIES && forall j :: 0 <= j < n ==> EntryAt(mem, pdpt, j) == EntryAt(m, pdpt, j)
    requires forall j :: 0 <= j < n && Present(EntryAt(m, pdpt, j)) ==>
               var pdt := AddrOf(EntryAt(m, pdpt, j)); pdt in m && pdt in mem && mem[pdt] == m[pdt]
    ensures Frames3(mem, pdpt, n) == Frames3(m, pdpt, n) && Tables3(mem, pdpt, n) == Tables3(m, pdpt, n)
  {
    hide Present, AddrOf, EntryAt, Frames2;
    if n > 0 {
      BelowSame(m, mem, pdpt, n - 1);
      if Present(EntryAt(m, pdpt, n - 1)) {
        Frames2Same(m, mem, AddrOf(EntryAt(m, pdpt, n - 1)), ENTRIES);
      }
    }
  }

  // ---------------------------------------------------------------- exactly once

  lemma {:induction false} Tables3Distinct(mem: Memory, pdpt: Word, n: nat)
    requires n <= ENTRIES && Branches(mem, pdpt, n)
    ensures Distinct(Tables3(mem, pdpt, n))
  {
    hide Present, AddrOf, EntryAt;
    if n > 0 {
      Tables3Distinct(mem, pdpt, n - 1);
      Tables3Has(mem, pdpt, n - 1, AddrOf(EntryAt(mem, pdpt, n - 1)));
    }
  }

  lemma TablesApart(mem: Memory, root: Word, own: map<Word, Node>, n: nat, t: Word)
    requires Tree(mem, root, USER_ENTRIES, own) && n < USER_ENTRIES && t in Tables4(mem, root, n)
    ensures t !in TablesAt(mem, root, n)
  {
    hide Tree, TablesAt, Tables4;
    Tables4Owned(mem, root, own, n, t);
    TablesAtOwned(mem, root, own, n, t);
  }

  lemma EmptyDistinct(mem: Memory, root: Word)
    ensures Distinct(Tables4(mem, root, 0))
  {
  }

  lemma {:induction false} Tables4Distinct(mem: Memory, root: Word, own: map<Word, Node>, n: nat)
    requires Tree(mem, root, USER_ENTRIES, own) && n <= USER_ENTRIES
    ensures Distinct(Tables4(mem, root, n))
  {
    hide Tables3, TablesAt, Tree, Distinct;
    if n > 0 {
      var s, u := Tables4(mem, root, n - 1), TablesAt(mem, root, n - 1);
      assert Tables4(mem, root, n) == s + u;
      hide Tables4;
      Tables4Distinct(mem, root, own, n - 1);
      TablesAtDistinct(mem, root, own, n - 1);
      forall t | t in s
        ensures t !in u
      {
        TablesApart(mem, root, own, n - 1, t);
      }
      DistinctConcat(s, u);
    } else {
      EmptyDistinct(mem, root);
    }
  }

  lemma TablesAtDistinct(mem: Memory, root: Word, own: map<Word, Node>, k: nat)
    requires Tree(mem, root, USER_ENTRIES, own) && k < USER_ENTRIES
    ensures Distinct(TablesAt(mem, root, k))
  {
    assert PdptOk(mem, root, USER_ENTRIES, own, k);
    if Below(mem, root, k).Some? {
      var pdpt := Below(mem, root, k).value;
      forall j | 0 <= j < ENTRIES && Present(EntryAt(mem, pdpt, j))
        ensures AddrOf(EntryAt(mem, pdpt, j)) in own && own[AddrOf(EntryAt(mem, pdpt, j))] == Pdt(k, j)
        ensures IsTable(mem, AddrOf(EntryAt(mem, pdpt, j)))
      {
        assert PdtOk(mem, pdpt, USER_ENTRIES, own, k, j);
      }
      hide Tree, Present, AddrOf, EntryAt;
      Tables3Distinct(mem, pdpt, ENTRIES);
      Tables3Has(mem, pdpt, ENTRIES, pdpt);
    }
  }

  /** Tear-down releases every table of the user half and the root, each exactly once, and no other. */
  lemma TablesFreedOnce(mem: Memory, root: Word, own: map<Word, Node>)
    requires Tree(mem, root, USER_ENTRIES, own)
    ensures var freed := Tables4(mem, root, USER_ENTRIES) + [root];
            Distinct(freed) && forall t :: t in freed <==> t in own
  {
    hide Tables3, Tables4, TablesAt, Below;
    Tables4Distinct(mem, root, own, USER_ENTRIES);
    forall t
      ensures t in Tables4(mem, root, USER_ENTRIES) <==> t in own && own[t] != Root
      ensures t in own && t != root ==> own[t] != Root
    {
      Tables4Owned(mem, root, own, USER_ENTRIES, t);
      assert t in own ==> Owned(mem, root, USER_ENTRIES, t, own[t]);
    }
  }

  /** Nothing that is reachable through the upper entries of the root is released. */
  lemma UpperTablesKept(mem: Memory, root: Word, own: map<Word, Node>, i: nat, j: nat)
    requires Tree(mem, root, USER_ENTRIES, own) && USER_ENTRIES <= i < ENTRIES && j < ENTRIES &&
             Below(mem, root, i).Some?
    ensures var freed, pdpt := Tables4(mem, root, USER_ENTRIES) + [root], Below(mem, root, i).value;
            pdpt !in freed && (Below(mem, pdpt, j).Some? ==> Below(mem, pdpt, j).value !in freed)
  {
    hide Tables3, Tables4, TablesAt;
    TablesFreedOnce(mem, root, own);
    assert PdptOk(mem, root, USER_ENTRIES, own, i);
    assert PdtOk(mem, Below(mem, root, i).value, USER_ENTRIES, own, i, j);
  }

  // ---------------------------------------------------------------- leaf frames

  /** The mapped pages below the first n entries of a directory, in order. */
  function Pages2(mem: Memory, pdt: Word, i: nat, j: nat, n: nat): (r: seq<Page>)
    requires n <= ENTRIES
  {
    if n == 0 then []
    else Pages2(mem, pdt, i, j, n - 1) + if Present(EntryAt(mem, pdt, n - 1)) then [Page(i, j, n - 1)] else []
  }

  function Pages3(mem: Memory, pdpt: Word, i: nat, n: nat): seq<Page>
    requires n <= ENTRIES
  {
    if n == 0 then []
    else Pages3(mem, pdpt, i, n - 1)
         + if Present(EntryAt(mem, pdpt, n - 1)) then Pages2(mem, AddrOf(EntryAt(mem, pdpt, n - 1)), i, n - 1, ENTRIES)
             else []
  }

  function Pages4(mem: Memory, root: Word, n: nat): seq<Page>
    requires n <= ENTRIES
  {
    if n == 0 then []
    else Pages4(mem, root, n - 1)
         + if Present(EntryAt(mem, root, n - 1)) then Pages3(mem, AddrOf(EntryAt(mem, root, n - 1)), n - 1, ENTRIES)
             else []
  }

  lemma {:induction false} Pages2Are(mem: Memory, pdt: Word, i: nat, j: nat, n: nat)
    requires n <= ENTRIES
    ensures Distinct(Pages2(mem, pdt, i, j, n))
    ensures forall p :: p in Pages2(mem, pdt, i, j, n) <==>
            p.i4 == i && p.i3 == j && p.i2 < n && Present(EntryAt(mem, pdt, p.i2))
    ensures |Frames2(mem, pdt, n)| == |Pages2(mem, pdt, i, j, n)|
    ensures forall k :: 0 <= k < |Pages2(mem, pdt, i, j, n)| ==>
              Pages2(mem, pdt, i, j, n)[k].i2 < ENTRIES &&
                  Frames2(mem, pdt, n)[k] == AddrOf(EntryAt(mem, pdt, Pages2(mem, pdt, i, j, n)[k].i2))
  {
    hide Present, AddrOf, EntryAt;
    if n > 0 {
      Pages2Are(mem, pdt, i, j, n - 1);
    }
  }

  /** `frames` lists, page by page, what `pages` are mapped to below the table t, `up` levels above the frames. */
  ghost predicate Matches(mem: Memory, t: Word, up: nat, frames: seq<Word>, pages: seq<Page>) {
    && |frames| == |pages| && Distinct(pages)
    && forall k :: 0 <= k < |pages| ==> Leaf(mem, t, up, pages[k]) == Some(frames[k])
  }

  function Leaf(mem: Memory, t: Word, up: nat, p: Page): Option<Word>
    decreases up
  {
    var i := if up == 0 then p.i2 else if up == 1 then p.i3 else p.i4;
    if i >= ENTRIES then None
    else if up == 0 then Below(mem, t, i)
    else match Below(mem, t, i) case None => None case Some(b) => Leaf(mem, b, up - 1, p)
  }

  lemma LeafIsFrame(mem: Memory, root: Word, p: Page)
    requires p.i4 < ENTRIES && p.i3 < ENTRIES && p.i2 < ENTRIES
    ensures Leaf(mem, root, 2, p) == Frame(mem, root, p)
  {
    hide Below;
    if Below(mem, root, p.i4).Some? {
      var pdpt := Below(mem, root, p.i4).value;
      assert Leaf(mem, root, 2, p) == Leaf(mem, pdpt, 1, p);
      if Below(mem, pdpt, p.i3).Some? {
        assert Leaf(mem, pdpt, 1, p) == Leaf(mem, Below(mem, pdpt, p.i3).value, 0, p);
      }
    }
  }

  lemma LeafInRange(mem: Memory, root: Word, p: Page)
    ensures Leaf(mem, root, 2, p).Some? ==> p.i4 < ENTRIES && p.i3 < ENTRIES && p.i2 < ENTRIES
  {
    hide Below;
    if p.i4 < ENTRIES && Below(mem, root, p.i4).Some? {
      assert Leaf(mem, root, 2, p) == Leaf(mem, Below(mem, root, p.i4).value, 1, p);
    }
  }

  lemma MatchesConcat(mem: Memory, t: Word, up: nat, frames: seq<Word>, pages: seq<Page>, frames': seq<Word>,
          pages': seq<Page>)
    requires Matches(mem, t, up, frames, pages) && Matches(mem, t, up, frames', pages')
    requires forall p :: p in pages ==> p !in pages'
    ensures Matches(mem, t, up, frames + frames', pages + pages')
  {
    hide Leaf;
    DistinctConcat(pages, pages');
  }

  lemma Pages2Match(mem: Memory, pdt: Word, i: nat, j: nat)
    ensures Matches(mem, pdt, 0, Frames2(mem, pdt, ENTRIES), Pages2(mem, pdt, i, j, ENTRIES))
    ensures forall p :: p in Pages2(mem, pdt, i, j, ENTRIES) <==> p.i4 == i && p.i3 == j && Leaf(mem, pdt, 0, p).Some?
  {
    Pages2Are(mem, pdt, i, j, ENTRIES);
    hide Present, AddrOf, EntryAt, Frames2;
    var pages := Pages2(mem, pdt, i, j, ENTRIES);
    forall k | 0 <= k < |pages|
      ensures Leaf(mem, pdt, 0, pages[k]) == Some(Frames2(mem, pdt, ENTRIES)[k])
    {
      assert pages[k] in pages;
    }
    hide Pages2;
  }

  /** What lies below entry i of a table matches, as seen from that table. */
  lemma MatchesBelow(mem: Memory, t: Word, up: nat, i: nat, frames: seq<Word>, pages: seq<Page>)
    requires 1 <= up <= 2 && i < ENTRIES && Below(mem, t, i).Some?
    requires Matches(mem, Below(mem, t, i).value, up - 1, frames, pages)
    requires forall p :: p in pages ==> (if up == 1 then p.i3 else p.i4) == i
    ensures Matches(mem, t, up, frames, pages)
  {
    hide Below;
    forall k | 0 <= k < |pages|
      ensures Leaf(mem, t, up, pages[k]) == Some(frames[k])
    {
      assert pages[k] in pages;
    }
  }

  lemma {:induction false} Pages3Match(mem: Memory, pdpt: Word, i: nat, n: nat)
    requires n <= ENTRIES
    ensures Matches(mem, pdpt, 1, Frames3(mem, pdpt, n), Pages3(mem, pdpt, i, n))
    ensures forall p :: p in Pages3(mem, pdpt, i, n) <==> p.i4 == i && p.i3 < n && Leaf(mem, pdpt, 1, p).Some?
  {
    hide Frames2, Pages2, Matches, Below;
    if n == 0 {
      NothingMatches(mem, pdpt, 1);
    } else {
      Pages3Match(mem, pdpt, i, n - 1);
      BelowIsEntry(mem, pdpt, n - 1);
      if Below(mem, pdpt, n - 1).Some? {
        var pdt := Below(mem, pdpt, n - 1).value;
        Pages2Match(mem, pdt, i, n - 1);
        var frames, pages := Frames2(mem, pdt, ENTRIES), Pages2(mem, pdt, i, n - 1, ENTRIES);
        MatchesBelow(mem, pdpt, 1, n - 1, frames, pages);
        MatchesConcat(mem, pdpt, 1, Frames3(mem, pdpt, n - 1), Pages3(mem, pdpt, i, n - 1), frames, pages);
      } else {
        assert Frames3(mem, pdpt, n) == Frames3(mem, pdpt, n - 1) &&
            Pages3(mem, pdpt, i, n) == Pages3(mem, pdpt, i, n - 1);
      }
    }
  }

  lemma NothingMatches(mem: Memory, t: Word, up: nat)
    ensures Matches(mem, t, up, [], [])
  {
  }

  lemma BelowIsEntry(mem: Memory, t: Word, i: nat)
    requires i < ENTRIES
    ensures Below(mem, t, i) == if Present(EntryAt(mem, t, i)) then Some(AddrOf(EntryAt(mem, t, i))) else None
  {
    hide Present, AddrOf, EntryAt;
  }

  lemma {:induction false} Pages4Match(mem: Memory, root: Word, n: nat)
    requires n <= ENTRIES
    ensures Matches(mem, root, 2, Frames4(mem, root, n), Pages4(mem, root, n))
    ensures forall p :: p in Pages4(mem, root, n) <==> p.i4 < n && Leaf(mem, root, 2, p).Some?
  {
    hide Frames3, Pages3, Matches, Below;
    if n == 0 {
      NothingMatches(mem, root, 2);
    } else {
      Pages4Match(mem, root, n - 1);
      BelowIsEntry(mem, root, n - 1);
      if Below(mem, root, n - 1).Some? {
        var pdpt := Below(mem, root, n - 1).value;
        Pages3Match(mem, pdpt, n - 1, ENTRIES);
        var frames, pages := Frames3(mem, pdpt, ENTRIES), Pages3(mem, pdpt, n - 1, ENTRIES);
        MatchesBelow(mem, root, 2, n - 1, frames, pages);
        MatchesConcat(mem, root, 2, Frames4(mem, root, n - 1), Pages4(mem, root, n - 1), frames, pages);
      } else {
        assert Frames4(mem, root, n) == Frames4(mem, root, n - 1) && Pages4(mem, root, n) == Pages4(mem, root, n - 1);
      }
    }
  }

  /** Tear-down releases the frame of every mapped page of the user half exactly once, and no other frame. */
  lemma FramesFreedOnce(mem: Memory, root: Word)
    ensures var pages, frames := Pages4(mem, root, USER_ENTRIES), Frames4(mem, root, USER_ENTRIES);
            && Distinct(pages) && |frames| == |pages|
            && (forall p :: p in pages <==>
                 p.i4 < USER_ENTRIES && p.i3 < ENTRIES && p.i2 < ENTRIES && Frame(mem, root, p).Some?)
            && forall k :: 0 <= k < |pages| ==>
                 pages[k].i4 < ENTRIES && pages[k].i3 < ENTRIES && pages[k].i2 < ENTRIES &&
                     Frame(mem, root, pages[k]) == Some(frames[k])
  {
    Pages4Match(mem, root, USER_ENTRIES);
    var pages := Pages4(mem, root, USER_ENTRIES);
    hide Frames4, Pages4, Leaf, Frame;
    forall p
      ensures p in pages <==> p.i4 < USER_ENTRIES && p.i3 < ENTRIES && p.i2 < ENTRIES && Frame(mem, root, p).Some?
      ensures p in pages ==> Leaf(mem, root, 2, p) == Frame(mem, root, p)
    {
      LeafInRange(mem, root, p);
      if p.i4 < ENTRIES && p.i3 < ENTRIES && p.i2 < ENTRIES {
        LeafIsFrame(mem, root, p);
      }
    }
    assert forall k :: 0 <= k < |pages| ==> pages[k] in pages;
  }
}
