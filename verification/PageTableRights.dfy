/** What the processor grants to a user program on its walk through the tables. */
module PageTableRights {
  import opened Arithmetic
  import opened Options
  import opened Words
  import opened PageTable

  /** Bit 1 of an entry. */
  predicate Writable(e: Word) {
    e / 2 % 2 == 1
  }

  /** Bit 2. */
  predicate ForUsers(e: Word) {
    e / 4 % 2 == 1
  }

  /** Bit 7, in an entry of a directory: it maps a page of 2 MiB and not a further table. */
  predicate Large(e: Word) {
    e / 0x80 % 2 == 1
  }

  /** The positions of the bits, and that no two of them are the same. */
  lemma BitsAre(e: Word, high: nat, ps: nat, mid: nat, us: nat, rw: nat, p: nat)
    requires e == high * 0x100 + ps * 0x80 + mid * 8 + us * 4 + rw * 2 + p
    requires ps < 2 && mid < 16 && us < 2 && rw < 2 && p < 2
    ensures (Present(e) <==> p == 1) && (Writable(e) <==> rw == 1)
    ensures (ForUsers(e) <==> us == 1) && (Large(e) <==> ps == 1)
  {
    QuotientOf(high * 0x80 + ps * 0x40 + mid * 4 + us * 2 + rw, p, 2);
    QuotientOf(high * 0x40 + ps * 0x20 + mid * 2 + us, rw, 2);
    QuotientOf(high * 0x40 + ps * 0x20 + mid * 2 + us, rw * 2 + p, 4);
    QuotientOf(high * 0x20 + ps * 0x10 + mid, us, 2);
    QuotientOf(high * 2 + ps, mid * 8 + us * 4 + rw * 2 + p, 0x80);
    QuotientOf(high, ps, 2);
  }

  /** What a program may do with a page: the walk grants what all its entries grant. */
  datatype Rights = Rights(write: bool, user: bool, large: bool)

  ghost function RightsOf(mem: Memory, root: Word, p: Page): Option<Rights>
    requires IsPage(p)
  {
    var e4 := EntryAt(mem, root, p.i4);
    var e3 := EntryAt(mem, AddrOf(e4), p.i3);
    var e2 := EntryAt(mem, AddrOf(e3), p.i2);
    if !Present(e4) || !Present(e3) || !Present(e2) then None
    else Some(Rights(Writable(e4) && Writable(e3) && Writable(e2),
                     ForUsers(e4) && ForUsers(e3) && ForUsers(e2), Large(e2)))
  }

  /** A page has rights exactly if it is mapped. */
  lemma RightsIfMapped(mem: Memory, root: Word, p: Page)
    requires IsPage(p)
    ensures RightsOf(mem, root, p).Some? <==> Frame(mem, root, p).Some?
  {
  }

  ghost predicate Open(e: Word) {
    Present(e) ==> Writable(e) && ForUsers(e)
  }

  /** The private tables above the directories stand in nobody's way. */
  ghost predicate AllOpen(mem: Memory, root: Word, half: nat) {
    half <= ENTRIES && forall i, j :: 0 <= i < half && 0 <= j < ENTRIES ==> OpenAt(mem, root, i, j)
  }

  ghost predicate OpenAt(mem: Memory, root: Word, i: nat, j: nat)
    requires i < ENTRIES && j < ENTRIES
  {
    var e4 := EntryAt(mem, root, i);
    Open(e4) && (Present(e4) ==> Open(EntryAt(mem, AddrOf(e4), j)))
  }

  /** An empty root is open. */
  lemma EmptyIsOpen(mem: Memory, root: Word, half: nat)
    requires half <= ENTRIES && forall i :: 0 <= i < half ==> EntryAt(mem, root, i) == 0
    ensures AllOpen(mem, root, half)
  {
  }

  lemma EntrySet(mem: Memory, t: Word, i: nat, e: Word, t': Word, i': nat)
    requires IsTable(mem, t) && i < ENTRIES && i' < ENTRIES
    ensures EntryAt(SetEntry(mem, t, i, e), t', i') == if t' == t && i' == i then e else EntryAt(mem, t', i')
  {
  }

  lemma EntryNew(mem: Memory, t: Word, i: nat, page: Word, t': Word, i': nat)
    requires IsTable(mem, t) && i < ENTRIES && page % PT_SIZE == 0 && i' < ENTRIES && page !in mem
    ensures EntryAt(WithTable(mem, t, i, page), t', i') ==
            if t' == t && i' == i then Entry(page, TABLE_FLAGS) else EntryAt(mem, t', i')
  {
    EntrySet(mem[page := Zeros(ENTRIES)], t, i, Entry(page, TABLE_FLAGS), t', i');
    assert EntryAt(mem[page := Zeros(ENTRIES)], t', i') == if t' == page then 0 else EntryAt(mem, t', i');
  }

  lemma FlagsGrant(addr: Word)
    requires addr % PT_SIZE == 0
    ensures Open(Entry(addr, TABLE_FLAGS)) && Present(Entry(addr, TABLE_FLAGS))
    ensures var e := Entry(addr, PG_DEFAULT_FLAGS); Present(e) && Writable(e) && ForUsers(e) && Large(e)
  {
    var high := addr / PT_SIZE * 16;
    assert addr == high * 0x100;
    BitsAre(Entry(addr, TABLE_FLAGS), high, 0, 0, 1, 1, 1);
    BitsAre(Entry(addr, PG_DEFAULT_FLAGS), high, 1, 0, 1, 1, 1);
  }

  /** Where the private tables are. */
  lemma Tables(mem: Memory, root: Word, half: nat, own: map<Word, Node>, q: Page)
    requires Tree(mem, root, half, own) && IsPage(q)
    ensures var e4 := EntryAt(mem, root, q.i4);
            && root in own && own[root] == Root
            && (Present(e4) ==>
                  && (if q.i4 < half then AddrOf(e4) in own && own[AddrOf(e4)] == Pdpt(q.i4) else AddrOf(e4) !in own)
                  && var e3 := EntryAt(mem, AddrOf(e4), q.i3);
                     (Present(e3) ==>
                        if q.i4 < half then AddrOf(e3) in own && own[AddrOf(e3)] == Pdt(q.i4, q.i3)
                        else AddrOf(e3) !in own))
  {
    assert PdptOk(mem, root, half, own, q.i4);
    if Below(mem, root, q.i4).Some? {
      assert PdtOk(mem, Below(mem, root, q.i4).value, half, own, q.i4, q.i3);
    }
  }

  /** Setting a private leaf changes the rights of one page. */
  lemma LeafRights(mem: Memory, root: Word, half: nat, own: map<Word, Node>, p: Page, e: Word, q: Page)
    requires Tree(mem, root, half, own) && p.i4 < half && p.i3 < ENTRIES && p.i2 < ENTRIES
    requires IsPage(q)
    requires Below(mem, root, p.i4).Some? && Below(mem, Below(mem, root, p.i4).value, p.i3).Some?
    ensures var e4 := EntryAt(mem, root, p.i4);
            var e3 := EntryAt(mem, AddrOf(e4), p.i3);
            var pdt := Below(mem, Below(mem, root, p.i4).value, p.i3).value;
            && IsTable(mem, pdt)
            && RightsOf(SetEntry(mem, pdt, p.i2, e), root, q) ==
               if q != p then RightsOf(mem, root, q)
               else if !Present(e) then None
               else Some(Rights(Writable(e4) && Writable(e3) && Writable(e),
                                ForUsers(e4) && ForUsers(e3) && ForUsers(e), Large(e)))
  {
    LeafSet(mem, root, half, own, p, e, q);
    Tables(mem, root, half, own, p);
    Tables(mem, root, half, own, q);
    hide Tree, Present, AddrOf, Writable, ForUsers, Large, Frame, SetEntry, EntryAt;
    var e4 := EntryAt(mem, root, p.i4);
    var pdt := AddrOf(EntryAt(mem, AddrOf(e4), p.i3));
    EntrySet(mem, pdt, p.i2, e, root, q.i4);
    var f4 := EntryAt(mem, root, q.i4);
    EntrySet(mem, pdt, p.i2, e, AddrOf(f4), q.i3);
    var f3 := EntryAt(mem, AddrOf(f4), q.i3);
    EntrySet(mem, pdt, p.i2, e, AddrOf(f3), q.i2);
  }

  /** A leaf of an open walk grants what it says itself. */
  lemma LeafOfOpen(mem: Memory, root: Word, half: nat, p: Page)
    requires AllOpen(mem, root, half) && p.i4 < half && p.i3 < ENTRIES
    requires Below(mem, root, p.i4).Some? && Below(mem, Below(mem, root, p.i4).value, p.i3).Some?
    ensures var e4 := EntryAt(mem, root, p.i4);
            var e3 := EntryAt(mem, AddrOf(e4), p.i3);
            Writable(e4) && Writable(e3) && ForUsers(e4) && ForUsers(e3)
  {
    assert OpenAt(mem, root, p.i4, p.i3);
    hide Writable, ForUsers;
  }

  lemma LeafKeepsOpen(mem: Memory, root: Word, half: nat, own: map<Word, Node>, p: Page, e: Word)
    requires Tree(mem, root, half, own) && p.i4 < half && p.i3 < ENTRIES && p.i2 < ENTRIES && AllOpen(mem, root, half)
    requires Below(mem, root, p.i4).Some? && Below(mem, Below(mem, root, p.i4).value, p.i3).Some?
    ensures var pdt := Below(mem, Below(mem, root, p.i4).value, p.i3).value;
            IsTable(mem, pdt) && AllOpen(SetEntry(mem, pdt, p.i2, e), root, half)
  {
    Tables(mem, root, half, own, p);
    var pdt := Below(mem, Below(mem, root, p.i4).value, p.i3).value;
    hide Tree, Present, AddrOf, Writable, ForUsers, SetEntry, EntryAt, AllOpen;
    forall i, j | 0 <= i < half && 0 <= j < ENTRIES
      ensures OpenAt(SetEntry(mem, pdt, p.i2, e), root, i, j)
    {
      Tables(mem, root, half, own, Page(i, j, 0));
      OpenIn(mem, root, half, i, j);
      EntrySet(mem, pdt, p.i2, e, root, i);
      EntrySet(mem, pdt, p.i2, e, AddrOf(EntryAt(mem, root, i)), j);
    }
    AreOpen(SetEntry(mem, pdt, p.i2, e), root, half);
  }

  lemma OpenIn(mem: Memory, root: Word, half: nat, i: nat, j: nat)
    requires AllOpen(mem, root, half) && i < half && j < ENTRIES
    ensures OpenAt(mem, root, i, j)
  {
  }

  lemma AreOpen(mem: Memory, root: Word, half: nat)
    requires half <= ENTRIES && forall i, j :: 0 <= i < half && 0 <= j < ENTRIES ==> OpenAt(mem, root, i, j)
    ensures AllOpen(mem, root, half)
  {
  }

  /** A new table takes the place of an absent entry. */
  ghost predicate NewTable(mem: Memory, root: Word, half: nat, own: map<Word, Node>, t: Word, i: nat, page: Word) {
    && Tree(mem, root, half, own) && IsTable(mem, t) && i < ENTRIES && Below(mem, t, i) == None
    && page !in mem && page % PT_SIZE == 0 && t in own && !own[t].Pdt?
  }

  /** The tables on a walk are among those there are. */
  lemma OnTheWay(mem: Memory, root: Word, half: nat, own: map<Word, Node>, q: Page)
    requires Tree(mem, root, half, own) && IsPage(q)
    ensures root in mem
    ensures var e4 := EntryAt(mem, root, q.i4);
            Present(e4) ==>
              && AddrOf(e4) in mem
              && var e3 := EntryAt(mem, AddrOf(e4), q.i3);
                 (Present(e3) ==> AddrOf(e3) in mem)
  {
    assert PdptOk(mem, root, half, own, q.i4);
    if Below(mem, root, q.i4).Some? {
      assert PdtOk(mem, Below(mem, root, q.i4).value, half, own, q.i4, q.i3);
    }
  }

  /** A new table, being empty, gives no rights and takes none. */
  lemma NewTableRights(mem: Memory, root: Word, half: nat, own: map<Word, Node>, t: Word, i: nat, page: Word, q: Page)
    requires NewTable(mem, root, half, own, t, i, page) && IsPage(q)
    ensures RightsOf(WithTable(mem, t, i, page), root, q) == RightsOf(mem, root, q)
  {
    var mem' := WithTable(mem, t, i, page);
    NewTableFrames(mem, root, half, own, t, i, page, q);
    RightsIfMapped(mem, root, q);
    RightsIfMapped(mem', root, q);
    Tables(mem, root, half, own, q);
    OnTheWay(mem, root, half, own, q);
    EntryNew(mem, t, i, page, root, q.i4);
    var f4 := EntryAt(mem, root, q.i4);
    EntryNew(mem, t, i, page, AddrOf(f4), q.i3);
    var f3 := EntryAt(mem, AddrOf(f4), q.i3);
    EntryNew(mem, t, i, page, AddrOf(f3), q.i2);
    hide Tree, Present, AddrOf, Writable, ForUsers, Large, Frame, WithTable, EntryAt, Entry;
  }

  lemma NewTableOpen(mem: Memory, root: Word, half: nat, own: map<Word, Node>, t: Word, i: nat, page: Word)
    requires NewTable(mem, root, half, own, t, i, page) && AllOpen(mem, root, half)
    ensures AllOpen(WithTable(mem, t, i, page), root, half)
  {
    FlagsGrant(page);
    hide Tree, Present, AddrOf, Writable, ForUsers, WithTable, AllOpen;
    forall k, j | 0 <= k < half && 0 <= j < ENTRIES
      ensures OpenAt(WithTable(mem, t, i, page), root, k, j)
    {
      NewTableOpenAt(mem, root, half, own, t, i, page, k, j);
    }
    AreOpen(WithTable(mem, t, i, page), root, half);
  }

  lemma NewTableOpenAt(mem: Memory, root: Word, half: nat, own: map<Word, Node>, t: Word, i: nat, page: Word,
          k: nat, j: nat)
    requires NewTable(mem, root, half, own, t, i, page) && AllOpen(mem, root, half) && k < half && j < ENTRIES
    requires Open(Entry(page, TABLE_FLAGS)) && Present(Entry(page, TABLE_FLAGS))
    ensures OpenAt(WithTable(mem, t, i, page), root, k, j)
  {
    Tables(mem, root, half, own, Page(k, j, 0));
    OnTheWay(mem, root, half, own, Page(k, j, 0));
    OpenIn(mem, root, half, k, j);
    EntryNew(mem, t, i, page, root, k);
    var f4 := EntryAt(mem, root, k);
    EntryNew(mem, t, i, page, AddrOf(f4), j);
    EntryNew(mem, t, i, page, page, j);
    NoEntry(mem, page, j);
    hide Tree, AddrOf, Writable, ForUsers, WithTable, EntryAt, AllOpen;
  }

  lemma NoEntry(mem: Memory, page: Word, j: nat)
    requires page !in mem && j < ENTRIES
    ensures EntryAt(mem, page, j) == 0 && !Present(EntryAt(mem, page, j))
  {
  }

  // ---------------------------------------------------------------- over a whole operation

  /** Only page p's rights change. */
  ghost predicate OneRight(mem: Memory, mem': Memory, root: Word, p: Page) {
    forall q {:trigger RightsOf(mem', root, q)} ::
      IsPage(q) && q != p ==> RightsOf(mem', root, q) == RightsOf(mem, root, q)
  }

  ghost predicate SameRights(mem: Memory, mem': Memory, root: Word) {
    forall q {:trigger RightsOf(mem', root, q)} :: IsPage(q) ==> RightsOf(mem', root, q) == RightsOf(mem, root, q)
  }

  lemma NewTableKeeps(mem: Memory, root: Word, half: nat, own: map<Word, Node>, t: Word, i: nat, page: Word)
    requires NewTable(mem, root, half, own, t, i, page)
    ensures SameRights(mem, WithTable(mem, t, i, page), root)
    ensures AllOpen(mem, root, half) ==> AllOpen(WithTable(mem, t, i, page), root, half)
  {
    assert IsTable(mem, t) && i < ENTRIES && page % PT_SIZE == 0;
    hide NewTable, RightsOf, WithTable, AllOpen;
    forall q | IsPage(q)
      ensures RightsOf(WithTable(mem, t, i, page), root, q) == RightsOf(mem, root, q)
    {
      NewTableRights(mem, root, half, own, t, i, page, q);
    }
    if AllOpen(mem, root, half) {
      NewTableOpen(mem, root, half, own, t, i, page);
    }
  }

  /** Whatever is put at a private leaf: the other pages keep their rights, and open tables stay open. */
  lemma LeafKeeps(mem: Memory, root: Word, half: nat, own: map<Word, Node>, p: Page, e: Word)
    requires Tree(mem, root, half, own) && p.i4 < half && p.i3 < ENTRIES && p.i2 < ENTRIES
    requires Below(mem, root, p.i4).Some? && Below(mem, Below(mem, root, p.i4).value, p.i3).Some?
    ensures var pdt := Below(mem, Below(mem, root, p.i4).value, p.i3).value;
            && IsTable(mem, pdt)
            && var mem' := SetEntry(mem, pdt, p.i2, e);
               && OneRight(mem, mem', root, p)
               && (AllOpen(mem, root, half) ==> AllOpen(mem', root, half))
               && (AllOpen(mem, root, half) && Present(e) ==>
                     RightsOf(mem', root, p) == Some(Rights(Writable(e), ForUsers(e), Large(e))))
  {
    assert IsPage(p);
    hide Tree, RightsOf, AllOpen, Below, SetEntry, Writable, ForUsers, Large;
    LeafRights(mem, root, half, own, p, e, p);
    var mem' := SetEntry(mem, Below(mem, Below(mem, root, p.i4).value, p.i3).value, p.i2, e);
    forall q | IsPage(q) && q != p
      ensures RightsOf(mem', root, q) == RightsOf(mem, root, q)
    {
      LeafRights(mem, root, half, own, p, e, q);
    }
    if AllOpen(mem, root, half) {
      LeafKeepsOpen(mem, root, half, own, p, e);
      LeafOfOpen(mem, root, half, p);
    }
  }

  lemma RightsAfter(mem: Memory, mem1: Memory, mem2: Memory, mem3: Memory, root: Word, p: Page)
    requires SameRights(mem, mem1, root) && SameRights(mem1, mem2, root) && OneRight(mem2, mem3, root, p)
    ensures OneRight(mem, mem3, root, p)
  {
    hide RightsOf;
    forall q {:trigger RightsOf(mem3, root, q)} | IsPage(q) && q != p
      ensures RightsOf(mem3, root, q) == RightsOf(mem, root, q)
    {
      assert RightsOf(mem1, root, q) == RightsOf(mem, root, q) && RightsOf(mem2, root, q) == RightsOf(mem1, root, q);
    }
  }
}
