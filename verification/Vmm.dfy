/**
 The virtual range tables: an array of blocks, sorted by address, that stands for a set of addresses.

 RangeTable is the array as the source edits it. Added, Removed and FirstFit say what the three
 operations make of the block sequence; the lemmas below say what that means for the address set.
 */
module Vmm {
  import opened Words

  datatype Block = Block(start: Word, size: Word) {
    /** The first address past the block, as an exact number. */
    function End(): int { start + size }
  }

  datatype Status = Success | Error | OutOfResource | NotFound

  // ---------------------------------------------------------------- the operations on sequences

  /** The number of leading blocks that start at or below `start`. */
  function Place(s: seq<Block>, start: Word): (i: nat)
    ensures i <= |s|
    ensures forall j :: 0 <= j < i ==> s[j].start <= start
    ensures i < |s| ==> s[i].start > start
  {
    if s == [] || s[0].start > start then 0 else 1 + Place(s[1..], start)
  }

  predicate JoinsLeft(s: seq<Block>, i: nat, start: Word)
    requires i <= |s|
  {
    i > 0 && Wrap(s[i - 1].start + s[i - 1].size) == start
  }

  predicate JoinsRight(s: seq<Block>, i: nat, start: Word, size: Word)
    requires i <= |s|
  {
    i < |s| && Wrap(start + size) == s[i].start
  }

  datatype Outcome = Outcome(status: Status, blocks: seq<Block>)

  function Cut(s: seq<Block>, i: nat): seq<Block>
    requires i < |s|
  {
    s[..i] + s[i + 1..]
  }

  function Inserted(s: seq<Block>, i: nat, b: Block): seq<Block>
    requires i <= |s|
  {
    s[..i] + [b] + s[i..]
  }

  function Added(s: seq<Block>, total: nat, start: Word, size: Word): Outcome {
    var i := Place(s, start);
    if JoinsLeft(s, i, start) then
      var grown := s[i - 1 := Block(s[i - 1].start, Wrap(s[i - 1].size + size))];
      if JoinsRight(s, i, start, size)
      then Outcome(Success, Cut(grown[i - 1 := Block(s[i - 1].start, Wrap(grown[i - 1].size + s[i].size))], i))
      else Outcome(Success, grown)
    else if JoinsRight(s, i, start, size) then Outcome(Success, s[i := Block(start, Wrap(s[i].size + size))])
    else if |s| < total then Outcome(Success, Inserted(s, i, Block(start, size)))
    else Outcome(Error, s)
  }

  /** The test by which a removal picks its block. */
  predicate Matches(b: Block, start: Word, size: Word) {
    b.start <= start && Wrap(start + size) <= Wrap(b.start + b.size)
  }

  function FirstMatch(s: seq<Block>, start: Word, size: Word): (i: nat)
    ensures i <= |s|
    ensures forall j :: 0 <= j < i ==> !Matches(s[j], start, size)
    ensures i < |s| ==> Matches(s[i], start, size)
  {
    if s == [] || Matches(s[0], start, size) then 0 else 1 + FirstMatch(s[1..], start, size)
  }

  function Removed(s: seq<Block>, total: nat, start: Word, size: Word): Outcome {
    var i := FirstMatch(s, start, size);
    if i == |s| then Outcome(NotFound, s)
    else
      var lo, hi, end := s[i].start, Wrap(s[i].start + s[i].size), Wrap(start + size);
      if start == lo && end == hi then Outcome(Success, Cut(s, i))
      else if start > lo && end < hi then
        if |s| >= total then Outcome(OutOfResource, s)
        else Outcome(Success, Inserted(s[i := Block(lo, start - lo)], i + 1, Block(end, hi - end)))
      else if start == lo then Outcome(Success, s[i := Block(end, hi - end)])
      else Outcome(Success, s[i := Block(lo, start - lo)])
  }

  function FirstFit(s: seq<Block>, size: Word): (i: nat)
    ensures i <= |s|
    ensures forall j :: 0 <= j < i ==> s[j].size < size
    ensures i < |s| ==> s[i].size >= size
  {
    if s == [] || s[0].size >= size then 0 else 1 + FirstFit(s[1..], size)
  }

  // ---------------------------------------------------------------- the table

  class RangeTable {
    const blocks: array<Block>
    var used: nat

    ghost predicate Valid()
      reads this
    {
      used <= blocks.Length
    }

    ghost function Contents(): seq<Block>
      reads this, blocks
      requires Valid()
    {
      blocks[..used]
    }

    constructor (blocks: array<Block>)
      ensures Valid() && Contents() == [] && this.blocks == blocks
    {
      this.blocks := blocks;
      used := 0;
    }

    /** Closes the gap at `index`; `used` has been reduced already. */
    method MoveForward(index: nat)
      requires index <= used < blocks.Length
      modifies blocks
      ensures blocks[..used] == old(blocks[..index]) + old(blocks[index + 1..used + 1])
    {
      var i := index;
      while i < used
        invariant index <= i <= used
        invariant forall k :: 0 <= k < index ==> blocks[k] == old(blocks[k])
        invariant forall k :: index <= k < i ==> blocks[k] == old(blocks[k + 1])
        invariant forall k :: i <= k < blocks.Length ==> blocks[k] == old(blocks[k])
      {
        blocks[i] := blocks[i + 1];
        i := i + 1;
      }
    }

    /** Opens a gap at `index`; `used` has not been raised yet. */
    method MoveBackward(index: nat)
      requires index <= used < blocks.Length
      modifies blocks
      ensures blocks[..index] == old(blocks[..index])
      ensures blocks[index + 1..used + 1] == old(blocks[index..used])
    {
      var i := used;
      while i > index
        invariant index <= i <= used
        invariant forall k :: 0 <= k < i ==> blocks[k] == old(blocks[k])
        invariant forall k :: i < k <= used ==> blocks[k] == old(blocks[k - 1])
      {
        blocks[i] := blocks[i - 1];
        i := i - 1;
      }
    }

    /** using_blocks-- and move_forward, as both callers do it. */
    method Delete(index: nat)
      requires Valid() && index < used
      modifies this, blocks
      ensures Valid() && Contents() == Cut(old(Contents()), index)
    {
      used := used - 1;
      MoveForward(index);
    }

    /** move_backward, the new entry and using_blocks++, as both callers do it. */
    method Insert(index: nat, b: Block)
      requires Valid() && index <= used < blocks.Length
      modifies this, blocks
      ensures Valid() && Contents() == Inserted(old(Contents()), index, b)
    {
      MoveBackward(index);
      blocks[index] := b;
      used := used + 1;
      assert blocks[..used] == blocks[..index] + [blocks[index]] + blocks[index + 1..used];
    }

    method Replace(index: nat, b: Block)
      requires Valid() && index < used
      modifies blocks
      ensures Contents() == old(Contents())[index := b]
    {
      blocks[index] := b;
    }

    /** The loop that opens vmm_add_range. */
    method FindPlace(start: Word) returns (i: nat)
      requires Valid()
      ensures i == Place(Contents(), start)
    {
      i := 0;
      while i < used
        invariant i <= used
        invariant forall j :: 0 <= j < i ==> Contents()[j].start <= start
      {
        if blocks[i].start > start { break; }
        i := i + 1;
      }
      PlaceIs(Contents(), start, i);
    }

    /** The loop that opens vmm_remove_range; it leaves behind the bounds of the block it stopped at. */
    method FindMatch(start: Word, size: Word) returns (i: nat, lo: Word, hi: Word)
      requires Valid()
      ensures i == FirstMatch(Contents(), start, size)
      ensures i < used ==> lo == blocks[i].start && hi == Wrap(lo + blocks[i].size)
    {
      i := 0;
      lo, hi := 0, 0;
      while i < used
        invariant i <= used
        invariant forall j :: 0 <= j < i ==> !Matches(Contents()[j], start, size)
      {
        lo := blocks[i].start;
        hi := Wrap(lo + blocks[i].size);
        if start >= lo && Wrap(start + size) <= hi { break; }
        i := i + 1;
      }
      FirstMatchIs(Contents(), start, size, i);
    }

    method AddRange(start: Word, size: Word) returns (status: Status)
      requires Valid()
      modifies this, blocks
      ensures Valid()
      ensures Outcome(status, Contents()) == Added(old(Contents()), blocks.Length, start, size)
    {
      ghost var s := Contents();
      var i := FindPlace(start);
      hide Cut, Inserted, Place, Wrap, Added;
      if i > 0 {
        assert blocks[i - 1] == s[i - 1];
        if Wrap(blocks[i - 1].start + blocks[i - 1].size) == start {
          JoinLeft(i, start, size);
          return Success;
        }
      }
      status := AddApart(i, start, size);
    }

    /** The range begins where block i - 1 ends. */
    method JoinLeft(i: nat, start: Word, size: Word)
      requires Valid() && 0 < i <= used && i == Place(Contents(), start) && JoinsLeft(Contents(), i, start)
      modifies this, blocks
      ensures Valid()
      ensures Outcome(Success, Contents()) == Added(old(Contents()), blocks.Length, start, size)
    {
      ghost var s := Contents();
      hide Cut, Inserted, Place, Wrap, Added, JoinsLeft;
      assert blocks[i - 1] == s[i - 1];
      Replace(i - 1, Block(blocks[i - 1].start, Wrap(blocks[i - 1].size + size)));
      AddedLeft(s, Contents(), blocks.Length, start, size);
      if i == used {
        return;
      }
      assert blocks[i] == Contents()[i];
      if Wrap(start + size) == blocks[i].start {
        Swallow(i);
      }
    }

    /** Block i becomes part of block i - 1. */
    method Swallow(i: nat)
      requires Valid() && 0 < i < used
      modifies this, blocks
      ensures Valid()
      ensures var s := old(Contents());
              Contents() == Cut(s[i - 1 := Block(s[i - 1].start, Wrap(s[i - 1].size + s[i].size))], i)
    {
      hide Cut, Wrap;
      assert blocks[i - 1] == Contents()[i - 1] && blocks[i] == Contents()[i];
      Replace(i - 1, Block(blocks[i - 1].start, Wrap(blocks[i - 1].size + blocks[i].size)));
      Delete(i);
    }

    /** The range does not begin where a block ends. */
    method AddApart(i: nat, start: Word, size: Word) returns (status: Status)
      requires Valid() && i <= used && i == Place(Contents(), start) && !JoinsLeft(Contents(), i, start)
      modifies this, blocks
      ensures Valid()
      ensures Outcome(status, Contents()) == Added(old(Contents()), blocks.Length, start, size)
    {
      ghost var s := Contents();
      hide Cut, Inserted, Place, Wrap;
      if i < used {
        assert blocks[i] == s[i];
        if Wrap(start + size) == blocks[i].start {
          Replace(i, Block(start, Wrap(blocks[i].size + size)));
          return Success;
        }
      }
      if used < blocks.Length {
        Insert(i, Block(start, size));
        return Success;
      }
      return Error;
    }

    /** One block becomes two. */
    method Split(i: nat, left: Block, right: Block)
      requires Valid() && i < used < blocks.Length
      modifies this, blocks
      ensures Valid() && Contents() == Inserted(old(Contents())[i := left], i + 1, right)
    {
      hide Inserted;
      Replace(i, left);
      Insert(i + 1, right);
    }

    method RemoveRange(start: Word, size: Word) returns (status: Status)
      requires Valid()
      modifies this, blocks
      ensures Valid()
      ensures Outcome(status, Contents()) == Removed(old(Contents()), blocks.Length, start, size)
    {
      ghost var s := Contents();
      var end := Wrap(start + size);
      var i, lo, hi := FindMatch(start, size);
      hide Cut, Inserted, FirstMatch, Wrap;
      if i >= used {
        return NotFound;
      }
      assert blocks[i] == s[i] && lo <= start && end <= hi;
      if start == lo && end == hi {
        Delete(i);
        return Success;
      }
      if start > lo && end < hi {
        if used >= blocks.Length {
          return OutOfResource;
        }
        Split(i, Block(lo, start - lo), Block(end, hi - end));
        return Success;
      }
      if start == lo {
        Replace(i, Block(end, hi - end));
        return Success;
      }
      assert end == hi;
      Replace(i, Block(lo, start - lo));
      return Success;
    }

    method Alloc(size: Word) returns (status: Status, vaddr: Word)
      requires Valid()
      modifies this, blocks
      ensures Valid()
      ensures var s := old(Contents());
              var i := FirstFit(s, size);
              if i == |s| then status == OutOfResource && Contents() == s
              else status == Success && vaddr == s[i].start
                   && Contents() == Removed(s, blocks.Length, s[i].start, size).blocks
    {
      ghost var s := Contents();
      var i := 0;
      vaddr := 0;
      while i < used
        invariant i <= used && Valid() && Contents() == s
        invariant forall j :: 0 <= j < i ==> s[j].size < size
      {
        if blocks[i].size >= size {
          FirstFitIs(s, size, i);
          vaddr := blocks[i].start;
          var ignored := RemoveRange(vaddr, size);
          return Success, vaddr;
        }
        i := i + 1;
      }
      FirstFitIs(s, size, i);
      return OutOfResource, vaddr;
    }
  }

  lemma {:induction false} PlaceIs(s: seq<Block>, start: Word, i: nat)
    requires i <= |s| && (forall j :: 0 <= j < i ==> s[j].start <= start) && (i < |s| ==> s[i].start > start)
    ensures Place(s, start) == i
  {
    if i > 0 { PlaceIs(s[1..], start, i - 1); }
  }

  lemma {:induction false} FirstMatchIs(s: seq<Block>, start: Word, size: Word, i: nat)
    requires i <= |s| && (forall j :: 0 <= j < i ==> !Matches(s[j], start, size)) &&
             (i < |s| ==> Matches(s[i], start, size))
    ensures FirstMatch(s, start, size) == i
  {
    if i > 0 { FirstMatchIs(s[1..], start, size, i - 1); }
  }

  lemma {:induction false} FirstFitIs(s: seq<Block>, size: Word, i: nat)
    requires i <= |s| && (forall j :: 0 <= j < i ==> s[j].size < size) && (i < |s| ==> s[i].size >= size)
    ensures FirstFit(s, size) == i
  {
    if i > 0 { FirstFitIs(s[1..], size, i - 1); }
  }

  /** Added, when the range begins where block i - 1 ends. */
  lemma AddedLeft(s: seq<Block>, grown: seq<Block>, total: nat, start: Word, size: Word)
    requires JoinsLeft(s, Place(s, start), start)
    requires var i := Place(s, start); grown == s[i - 1 := Block(s[i - 1].start, Wrap(s[i - 1].size + size))]
    ensures var i := Place(s, start);
            if i < |grown| && Wrap(start + size) == grown[i].start then
              var all := grown[i - 1 := Block(grown[i - 1].start, Wrap(grown[i - 1].size + grown[i].size))];
              Added(s, total, start, size) == Outcome(Success, Cut(all, i))
            else
              Added(s, total, start, size) == Outcome(Success, grown)
  {
    hide Cut, Inserted, Wrap, Place;
  }
}
