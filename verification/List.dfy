/** The doubly linked list on which every queue of the kernel is built: nodes inside other structures, two sentinels. */
module List {
  import opened Sequences

  class Node {
    var prev: Node?
    var next: Node?

    constructor ()
      ensures prev == null && next == null
    {
      prev, next := null, null;
    }
  }

  /** The links of a chain of different nodes. */
  ghost predicate Chain(s: seq<Node>)
    reads s
  {
    && Distinct(s)
    && (forall i :: 0 <= i < |s| - 1 ==> s[i].next == s[i + 1])
    && (forall i :: 0 < i < |s| ==> s[i].prev == s[i - 1])
  }

  lemma ChainWithout(s: seq<Node>, i: nat)
    requires Distinct(s) && 0 < i < |s| - 1 && s[i - 1].next == s[i + 1] && s[i + 1].prev == s[i - 1]
    requires forall k :: 0 <= k < |s| - 1 && k != i - 1 && k != i ==> s[k].next == s[k + 1] && s[k + 1].prev == s[k]
    ensures Chain(s[..i] + s[i + 1..])
  {
    var t := s[..i] + s[i + 1..];
    assert forall k :: 0 <= k < |t| ==> t[k] == s[if k < i then k else k + 1];
    forall k | 0 <= k < |t| - 1
      ensures t[k].next == t[k + 1] && t[k + 1].prev == t[k]
    {
      var k' := if k < i then k else k + 1;
      assert t[k] == s[k'] && (k' != i - 1 ==> t[k + 1] == s[k' + 1]);
    }
  }

  lemma ChainWith(s: seq<Node>, node: Node, i: nat)
    requires Distinct(s) && node !in s && 0 < i < |s| && s[i - 1].next == node && s[i].prev == node
    requires node.prev == s[i - 1] && node.next == s[i]
    requires forall k :: 0 <= k < |s| - 1 && k != i - 1 ==> s[k].next == s[k + 1] && s[k + 1].prev == s[k]
    ensures Chain(s[..i] + [node] + s[i..])
  {
    var t := s[..i] + [node] + s[i..];
    assert forall k :: 0 <= k < |t| ==> t[k] == if k < i then s[k] else if k == i then node else s[k - 1];
    forall k | 0 <= k < |t| - 1
      ensures t[k].next == t[k + 1] && t[k + 1].prev == t[k]
    {
      if k < i - 1 {
        assert t[k] == s[k] && t[k + 1] == s[k + 1];
      } else if k > i {
        assert t[k] == s[k - 1] && t[k + 1] == s[k];
      }
    }
  }

  class List {
    const head: Node
    const tail: Node
    ghost var nodes: seq<Node>

    ghost function All(): seq<Node>
      reads this
    {
      [head] + nodes + [tail]
    }

    ghost predicate Valid()
      reads this, head, tail, All()
    {
      Chain(All()) && head.prev == null && tail.next == null
    }

    /** init_list. */
    constructor ()
      ensures Valid() && nodes == [] && fresh(head) && fresh(tail)
    {
      head := new Node();
      tail := new Node();
      nodes := [];
      new;
      head.next := tail;
      tail.prev := head;
    }

    /** list_in: a node that is on no list goes before the node at position i + 1, which may be the sentinel. */
    method ListIn(node: Node, inBefore: Node, ghost i: nat)
      requires Valid() && node !in All() && i <= |nodes| && inBefore == All()[i + 1]
      modifies this, All(), node
      ensures Valid() && nodes == old(nodes)[..i] + [node] + old(nodes)[i..]
    {
      ghost var s := All();
      assert inBefore.prev == s[i];
      inBefore.prev.next := node;
      node.prev := inBefore.prev;
      node.next := inBefore;
      inBefore.prev := node;
      nodes := nodes[..i] + [node] + nodes[i..];
      ChainWith(s, node, i + 1);
      assert All() == s[..i + 1] + [node] + s[i + 1..];
    }

    method Push(node: Node)
      requires Valid() && node !in All()
      modifies this, All(), node
      ensures Valid() && nodes == [node] + old(nodes)
    {
      assert head == All()[0] && head.next == All()[1];
      ListIn(node, head.next, 0);
    }

    method Append(node: Node)
      requires Valid() && node !in All()
      modifies this, All(), node
      ensures Valid() && nodes == old(nodes) + [node]
    {
      assert tail == All()[|nodes| + 1];
      ListIn(node, tail, |nodes|);
      assert nodes == old(nodes) + [node];
    }

    /** list_remove, which needs nothing but the node. */
    method Remove(node: Node, ghost i: nat)
      requires Valid() && i < |nodes| && nodes[i] == node
      modifies this, All()
      ensures Valid() && nodes == old(nodes)[..i] + old(nodes)[i + 1..] && node !in All()
      ensures node.prev == null && node.next == null
    {
      ghost var s := All();
      assert s[i + 1] == node && node.prev == s[i] && node.next == s[i + 2];
      node.prev.next := node.next;
      node.next.prev := node.prev;
      node.next := null;
      node.prev := null;
      nodes := nodes[..i] + nodes[i + 1..];
      ChainWithout(s, i + 1);
      assert All() == s[..i + 1] + s[i + 2..];
    }

    method Pop() returns (node: Node)
      requires Valid() && nodes != []
      modifies this, All()
      ensures Valid() && [node] + nodes == old(nodes)
    {
      assert head == All()[0] && head.next == All()[1] == nodes[0];
      node := head.next;
      Remove(node, 0);
    }

    method Empty() returns (r: bool)
      requires Valid()
      ensures r <==> nodes == []
    {
      assert head == All()[0] && head.next == All()[1];
      assert nodes != [] ==> All()[1] != All()[|nodes| + 1];
      r := head.next == tail;
    }

    /** list_find: the loop ends at the tail sentinel. */
    method Find(node: Node) returns (r: bool)
      requires Valid()
      ensures r <==> node in nodes
    {
      assert head == All()[0] && head.next == All()[1];
      var x := head.next;
      ghost var i := 0;
      r := false;
      while x != tail
        invariant i <= |nodes| && x == All()[i + 1] && node !in nodes[..i]
        decreases |nodes| - i
      {
        assert x == nodes[i];
        if x == node {
          return true;
        }
        assert x.next == All()[i + 2];
        x := x.next;
        i := i + 1;
      }
      AtTail(i);
    }

    method Len() returns (len: nat)
      requires Valid()
      ensures len == |nodes|
    {
      assert head == All()[0] && head.next == All()[1];
      var x := head.next;
      len := 0;
      while x != tail
        invariant len <= |nodes| && x == All()[len + 1]
        decreases |nodes| - len
      {
        assert x == nodes[len];
        assert x.next == All()[len + 2];
        len := len + 1;
        x := x.next;
      }
      AtTail(len);
    }

    lemma AtTail(i: nat)
      requires Valid() && i <= |nodes| && All()[i + 1] == tail
      ensures i == |nodes|
    {
      assert All()[|nodes| + 1] == tail;
    }
  }
}
