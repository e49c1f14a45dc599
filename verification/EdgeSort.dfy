/**
 The edge sort of the vendored rasteriser: a median-of-three quicksort that stops at twelve elements
 and scans without bounds checks, followed by one insertion pass. A pointer into the edge array is
 modelled as the array and an offset.
 */
module EdgeSort {
  import opened Arithmetic

  datatype Edge = Edge(x0: real, y0: real, x1: real, y1: real, invert: bool)

  predicate Less(a: Edge, b: Edge) {
    a.y0 < b.y0
  }

  ghost predicate Sorted(s: seq<Edge>) {
    forall i, j :: 0 <= i < j < |s| ==> s[i].y0 <= s[j].y0
  }

  ghost predicate AllLe(s: seq<Edge>, y: real) {
    forall i :: 0 <= i < |s| ==> s[i].y0 <= y
  }

  ghost predicate AllGe(s: seq<Edge>, y: real) {
    forall i :: 0 <= i < |s| ==> s[i].y0 >= y
  }

  ghost predicate Perm(s: seq<Edge>, t: seq<Edge>) {
    multiset(s) == multiset(t)
  }

  // ---------------------------------------------------------------- insertion pass

  /** p[k] = e, for the pointer p at offset lo. */
  method Store(a: array<Edge>, lo: nat, n: nat, k: nat, e: Edge)
    requires lo + n <= a.Length && k < n
    modifies a
    ensures a[..lo] == old(a[..lo]) && a[lo + n..] == old(a[lo + n..])
    ensures a[lo..lo + n] == old(a[lo..lo + n])[k := e]
  {
    a[lo + k] := e;
  }

  method InsSort(a: array<Edge>, lo: nat, n: nat)
    requires lo + n <= a.Length
    modifies a
    ensures a[..lo] == old(a[..lo]) && a[lo + n..] == old(a[lo + n..])
    ensures Sorted(a[lo..lo + n]) && Perm(a[lo..lo + n], old(a[lo..lo + n]))
  {
    ghost var before := a[lo..lo + n];
    var i := 1;
    while i < n
      invariant 1 <= i && (i <= n || n == 0)
      invariant a[..lo] == old(a[..lo]) && a[lo + n..] == old(a[lo + n..])
      invariant Sorted(a[lo..lo + if n == 0 then 0 else i])
      invariant Perm(a[lo..lo + n], before)
    {
      InsertOne(a, lo, n, i);
      i := i + 1;
    }
  }

  lemma SinkSorts(before: seq<Edge>, s: seq<Edge>, i: nat, j: nat)
    requires j <= i < |before| == |s| && Sorted(before[..i]) && s[j] == before[i]
    requires (forall k :: 0 <= k < j ==> s[k] == before[k]) && (j > 0 ==> before[j - 1].y0 <= s[j].y0)
    requires forall k :: j < k <= i ==> s[k] == before[k - 1] && s[j].y0 < s[k].y0
    ensures Sorted(s[..i + 1])
  {
    forall k, l | 0 <= k < l <= i
      ensures s[k].y0 <= s[l].y0
    {
      if k != j && l != j {
        var k', l' := if k < j then k else k - 1, if l < j then l else l - 1;
        assert before[..i][k'].y0 <= before[..i][l'].y0;
      } else if l == j {
        assert k < j - 1 ==> before[..i][k].y0 <= before[..i][j - 1].y0;
      }
    }
  }

  lemma SinkPermutes(before: seq<Edge>, s: seq<Edge>, i: nat, j: nat)
    requires j <= i < |before| == |s| && s[j] == before[i]
    requires forall k :: 0 <= k < j || i < k < |s| ==> s[k] == before[k]
    requires forall k :: j < k <= i ==> s[k] == before[k - 1]
    ensures Perm(s, before)
  {
    assert before == before[..j] + before[j..i] + [before[i]] + before[i + 1..];
    assert s == before[..j] + [before[i]] + before[j..i] + before[i + 1..];
  }

  /** The inner loop: larger elements move up by one until t fits at j. */
  method MakeGap(a: array<Edge>, lo: nat, n: nat, i: nat, t: Edge) returns (j: nat)
    requires lo + n <= a.Length && 0 < i < n && t == a[lo + i]
    modifies a
    ensures a[..lo] == old(a[..lo]) && a[lo + n..] == old(a[lo + n..]) && j <= i
    ensures var before, s := old(a[lo..lo + n]), a[lo..lo + n];
            && (forall k :: 0 <= k < j ==> s[k] == before[k]) && (j > 0 ==> before[j - 1].y0 <= t.y0)
            && (forall k :: j < k <= i ==> s[k] == before[k - 1] && t.y0 < s[k].y0)
            && (forall k :: i < k < n ==> s[k] == before[k]) && (i == j ==> s[i] == t)
  {
    ghost var before := a[lo..lo + n];
    ghost var s := before;
    j := i;
    while j > 0 && Less(t, a[lo + j - 1])
      invariant j <= i && s == a[lo..lo + n]
      invariant a[..lo] == old(a[..lo]) && a[lo + n..] == old(a[lo + n..])
      invariant forall k :: 0 <= k < j ==> s[k] == before[k]
      invariant forall k :: j < k <= i ==> s[k] == before[k - 1] && t.y0 < s[k].y0
      invariant (forall k :: i < k < n ==> s[k] == before[k]) && (i == j ==> s[i] == t)
    {
      Store(a, lo, n, j, a[lo + j - 1]);
      s := s[j := s[j - 1]];
      j := j - 1;
    }
  }

  /** The body of the outer loop: element i sinks to its place among the sorted ones before it. */
  method InsertOne(a: array<Edge>, lo: nat, n: nat, i: nat)
    requires lo + n <= a.Length && 0 < i < n && Sorted(a[lo..lo + i])
    modifies a
    ensures a[..lo] == old(a[..lo]) && a[lo + n..] == old(a[lo + n..])
    ensures Sorted(a[lo..lo + i + 1]) && Perm(a[lo..lo + n], old(a[lo..lo + n]))
  {
    hide Sorted, Perm;
    ghost var before := a[lo..lo + n];
    assert before[..i] == a[lo..lo + i];
    var t := a[lo + i];
    var j := MakeGap(a, lo, n, i, t);
    if i != j {
      Store(a, lo, n, j, t);
    }
    ghost var s := a[lo..lo + n];
    assert s[j] == t;
    SinkSorts(before, s, i, j);
    SinkPermutes(before, s, i, j);
    assert a[lo..lo + i + 1] == s[..i + 1];
  }

  // ---------------------------------------------------------------- quicksort

  /** Exchanging two elements of the segment. */
  method Swap(a: array<Edge>, lo: nat, n: nat, x: nat, y: nat)
    requires lo + n <= a.Length && x < n && y < n
    modifies a
    ensures a[..lo] == old(a[..lo]) && a[lo + n..] == old(a[lo + n..])
    ensures a[lo..lo + n] == Swapped(old(a[lo..lo + n]), x, y)
  {
    a[lo + x], a[lo + y] := a[lo + y], a[lo + x];
  }

  function Swapped(s: seq<Edge>, x: nat, y: nat): (r: seq<Edge>)
    requires x < |s| && y < |s|
  {
    s[x := s[y]][y := s[x]]
  }

  lemma SwappedPerm(s: seq<Edge>, x: nat, y: nat)
    requires x < |s| && y < |s|
    ensures Perm(Swapped(s, x, y), s)
  {
  }

  /** The choice of the source: which position to exchange with the middle so that the median is there. */
  function MedianSource(s: seq<Edge>): (z: nat)
    requires 2 < |s|
    ensures z < |s|
  {
    var m, e := |s| / 2, |s| - 1;
    if Less(s[0], s[m]) == Less(s[m], s[e]) then m
    else if Less(s[0], s[e]) == Less(s[m], s[e]) then 0 else e
  }

  function MedianFirst(s: seq<Edge>): (t: seq<Edge>)
    requires 2 < |s|
    ensures |t| == |s|
  {
    Swapped(Swapped(s, MedianSource(s), |s| / 2), 0, |s| / 2)
  }

  /** Both scans have a sentinel: at the middle or the end, one element is no smaller and one no larger. */
  lemma MedianIsBetween(s: seq<Edge>)
    requires 2 < |s|
    ensures var t, m, e := MedianFirst(s), |s| / 2, |s| - 1;
            && |t| == |s|
            && (t[0].y0 <= t[m].y0 || t[0].y0 <= t[e].y0) && (t[m].y0 <= t[0].y0 || t[e].y0 <= t[0].y0)
  {
  }

  method MedianToFront(a: array<Edge>, lo: nat, n: nat)
    requires lo + n <= a.Length && 2 < n
    modifies a
    ensures a[..lo] == old(a[..lo]) && a[lo + n..] == old(a[lo + n..])
    ensures a[lo..lo + n] == MedianFirst(old(a[lo..lo + n]))
  {
    var m := n / 2;
    var c01, c12 := Less(a[lo], a[lo + m]), Less(a[lo + m], a[lo + n - 1]);
    if c01 != c12 {
      var c := Less(a[lo], a[lo + n - 1]);
      var z := if c == c12 then 0 else n - 1;
      Swap(a, lo, n, z, m);
    }
    Swap(a, lo, n, 0, m);
  }

  /** A position from `from` on whose element is no smaller than y: the scan from below stops there. */
  ghost predicate HasStop(s: seq<Edge>, from: nat, y: real) {
    exists k :: from <= k < |s| && s[k].y0 >= y
  }

  /** `for (;; ++i)`: stops at the first element that is not less than the pivot; one must exist. */
  method ScanUp(a: array<Edge>, lo: nat, n: nat, from: nat) returns (i: nat)
    requires lo + n <= a.Length && 0 < n
    requires HasStop(a[lo..lo + n], from, a[lo].y0)
    ensures var s := a[lo..lo + n];
            && from <= i < n && s[i].y0 >= a[lo].y0
            && forall k :: from <= k < i ==> s[k].y0 < a[lo].y0
  {
    ghost var s := a[lo..lo + n];
    ghost var stop :| from <= stop < n && s[stop].y0 >= a[lo].y0;
    i := from;
    while Less(a[lo + i], a[lo])
      invariant from <= i <= stop && s == a[lo..lo + n]
      invariant forall k :: from <= k < i ==> s[k].y0 < a[lo].y0
      decreases stop - i
    {
      assert s[i] == a[lo + i];
      i := i + 1;
    }
    assert s[i] == a[lo + i];
  }

  /** `for (;; --j)`: the pivot itself stops the scan at the latest. */
  method ScanDown(a: array<Edge>, lo: nat, n: nat, from: nat) returns (j: nat)
    requires lo + n <= a.Length && from < n
    ensures var s := a[lo..lo + n];
            && j <= from && s[j].y0 <= a[lo].y0
            && forall k :: j < k <= from ==> s[k].y0 > a[lo].y0
  {
    ghost var s := a[lo..lo + n];
    j := from;
    while Less(a[lo], a[lo + j])
      invariant j <= from && s == a[lo..lo + n]
      invariant forall k :: j < k <= from ==> s[k].y0 > a[lo].y0
      decreases j
    {
      assert s[j] == a[lo + j];
      j := j - 1;
    }
    assert s[j] == a[lo + j];
  }

  /** Nothing below i exceeds anything from i on; j is i, or leaves out the element just below i. */
  ghost predicate Cut(s: seq<Edge>, i: nat, j: nat) {
    && 1 <= i < |s| && (j == i || j == i - 1)
    && exists y :: AllLe(s[..i], y) && AllGe(s[i..], y)
  }

  /** What the partition loop knows on each round: everything outside i..j is on its side of the pivot. */
  ghost predicate Sided(s: seq<Edge>, y: real, i: nat, j: int) {
    && 1 <= i <= j + 1 <= |s| && s[0].y0 == y
    && (forall k :: 0 <= k < i ==> s[k].y0 <= y) && (forall k :: j < k < |s| ==> s[k].y0 >= y)
  }

  /** The scans have met: the array is cut at i. */
  lemma ScansMeet(s: seq<Edge>, y: real, i0: nat, j0: int, i: nat, j: nat)
    requires Sided(s, y, i0, j0) && i0 <= i < |s| && j <= j0 && i >= j
    requires s[i].y0 >= y && forall k :: i0 <= k < i ==> s[k].y0 < y
    requires s[j].y0 <= y && forall k :: j < k <= j0 ==> s[k].y0 > y
    ensures Cut(s, i, j)
  {
    assert s[i0 - 1].y0 <= y && j >= i0 - 1;
    assert i <= j + 1 by {
      if j < j0 {
        assert s[j + 1].y0 > y;
      } else if j0 + 1 < |s| {
        assert s[j0 + 1].y0 >= y;
      }
    }
    assert AllLe(s[..i], y) && AllGe(s[i..], y);
  }

  /** The scans stopped before meeting: after the exchange both may step on. */
  lemma ScansGoOn(s: seq<Edge>, y: real, i0: nat, j0: int, i: nat, j: nat)
    requires Sided(s, y, i0, j0) && i0 <= i < j <= j0
    requires s[i].y0 >= y && forall k :: i0 <= k < i ==> s[k].y0 < y
    requires s[j].y0 <= y && forall k :: j < k <= j0 ==> s[k].y0 > y
    ensures var t := Swapped(s, i, j); Sided(t, y, i + 1, j - 1) && HasStop(t, i + 1, y)
  {
    assert Swapped(s, i, j)[j].y0 >= y;
  }

  /** The partition loop. */
  method Partition(a: array<Edge>, lo: nat, n: nat) returns (i: nat, j: nat)
    requires lo + n <= a.Length && 2 < n && HasStop(a[lo..lo + n], 1, a[lo].y0)
    modifies a
    ensures a[..lo] == old(a[..lo]) && a[lo + n..] == old(a[lo + n..])
    ensures Perm(a[lo..lo + n], old(a[lo..lo + n])) && Cut(a[lo..lo + n], i, j)
  {
    hide Perm, Sided, Cut, HasStop;
    ghost var s, y := a[lo..lo + n], a[lo].y0;
    i, j := 1, n - 1;
    assert Sided(s, y, i, j) by {
      SidedFirst(s);
    }
    PermRefl(s);
    while true
      invariant a[..lo] == old(a[..lo]) && a[lo + n..] == old(a[lo + n..])
      invariant s == a[lo..lo + n] && Perm(s, old(a[lo..lo + n]))
      invariant Sided(s, y, i, j) && HasStop(s, i, y)
      decreases n - i
    {
      ghost var i0, j0 := i, j;
      SidedPivot(s, y, i, j);
      assert a[lo] == s[0];
      i := ScanUp(a, lo, n, i);
      j := ScanDown(a, lo, n, j);
      assert s == a[lo..lo + n];
      if i >= j {
        ScansMeet(s, y, i0, j0, i, j);
        break;
      }
      ScansGoOn(s, y, i0, j0, i, j);
      SwappedPerm(s, i, j);
      Swap(a, lo, n, i, j);
      PermTrans(Swapped(s, i, j), s, old(a[lo..lo + n]));
      s := Swapped(s, i, j);
      i, j := i + 1, j - 1;
    }
  }

  lemma SidedFirst(s: seq<Edge>)
    requires 2 < |s|
    ensures Sided(s, s[0].y0, 1, |s| - 1)
  {
  }

  lemma SidedPivot(s: seq<Edge>, y: real, i: nat, j: int)
    requires Sided(s, y, i, j)
    ensures 1 <= i <= j + 1 <= |s| && s[0].y0 == y
  {
  }

  lemma PermRefl(s: seq<Edge>)
    ensures Perm(s, s)
  {
  }

  lemma PermTrans(s: seq<Edge>, t: seq<Edge>, u: seq<Edge>)
    requires Perm(s, t) && Perm(t, u)
    ensures Perm(s, u)
  {
  }

  // ---------------------------------------------------------------- the recursion

  /** A bound that holds of every element holds of every element of a permutation. */
  lemma PermBounded(s: seq<Edge>, t: seq<Edge>, y: real)
    requires Perm(s, t)
    ensures (AllLe(t, y) ==> AllLe(s, y)) && (AllGe(t, y) ==> AllGe(s, y)) && |s| == |t|
  {
    assert |multiset(s)| == |multiset(t)|;
    forall k | 0 <= k < |s|
      ensures exists l :: 0 <= l < |t| && t[l] == s[k]
    {
      assert s[k] in multiset(s) && s[k] in multiset(t) && s[k] in t;
    }
  }

  /**
   What the quicksort leaves: at most twelve elements, or a cut whose two sides are rough again. The
   element between them, when there is one, is not above anything to its right but is not yet placed.
   */
  ghost predicate Rough(s: seq<Edge>)
    decreases |s|
  {
    |s| <= 12 || exists i: nat, j: nat :: Cut(s, i, j) && Rough(s[..j]) && Rough(s[i..])
  }

  /** Sorting out the two sides of a cut leaves a cut. */
  lemma CutThenRough(s: seq<Edge>, i: nat, j: nat, left: seq<Edge>, right: seq<Edge>)
    requires Cut(s, i, j) && Perm(left, s[..j]) && Perm(right, s[i..]) && Rough(left) && Rough(right)
    ensures Rough(left + s[j..i] + right) && Perm(left + s[j..i] + right, s)
  {
    var t := left + s[j..i] + right;
    var y :| AllLe(s[..i], y) && AllGe(s[i..], y);
    assert s == s[..j] + s[j..i] + s[i..] && s[..i] == s[..j] + s[j..i];
    PermBounded(left + s[j..i], s[..i], y);
    PermBounded(right, s[i..], y);
    PermBounded(left, s[..j], y);
    assert t[..i] == left + s[j..i] && t[i..] == right && t[..j] == left;
    assert Cut(t, i, j);
  }

  /** Once the segment cur is replaced by a rough permutation of it, the whole is one of `all`. */
  ghost predicate Completes(all: seq<Edge>, pre: seq<Edge>, cur: seq<Edge>, post: seq<Edge>) {
    forall t :: Perm(t, cur) && Rough(t) ==> Rough(pre + t + post) && Perm(pre + t + post, all)
  }

  lemma CompletesFirst(s: seq<Edge>)
    ensures Completes(s, [], s, [])
  {
    forall t | Perm(t, s) && Rough(t)
      ensures Rough([] + t + []) && Perm([] + t + [], s)
    {
      assert [] + t + [] == t;
    }
  }

  lemma Regroup(a: seq<Edge>, b: seq<Edge>, c: seq<Edge>, d: seq<Edge>, e: seq<Edge>)
    ensures a + b + c + d + e == a + (b + c + d) + e == a + b + (c + d + e)
  {
  }

  lemma CompletesStep(all: seq<Edge>, pre: seq<Edge>, cur: seq<Edge>, post: seq<Edge>, s: seq<Edge>,
                      i: nat, j: nat, left: seq<Edge>, right: seq<Edge>)
    requires Completes(all, pre, cur, post) && Perm(s, cur) && Cut(s, i, j)
    requires Perm(left, s[..j]) && Rough(left) && Perm(right, s[i..]) && Rough(right)
    ensures Rough(pre + left + s[j..i] + right + post) && Perm(pre + left + s[j..i] + right + post, all)
  {
    hide Rough, Perm;
    CutThenRough(s, i, j, left, right);
    PermTrans(left + s[j..i] + right, s, cur);
    Regroup(pre, left, s[j..i], right, post);
  }

  /** The left side is done: go on with the right one. */
  lemma CompletesRight(all: seq<Edge>, pre: seq<Edge>, cur: seq<Edge>, post: seq<Edge>, s: seq<Edge>,
                       i: nat, j: nat, now: seq<Edge>)
    requires Completes(all, pre, cur, post) && Perm(s, cur) && Cut(s, i, j) && |now| == |s|
    requires now[j..] == s[j..] && Perm(now[..j], s[..j]) && Rough(now[..j])
    ensures Completes(all, pre + now[..i], now[i..], post)
  {
    hide Rough, Perm;
    assert now[i..] == now[j..][i - j..] == s[i..];
    forall t | Perm(t, now[i..]) && Rough(t)
      ensures Rough(pre + now[..i] + t + post) && Perm(pre + now[..i] + t + post, all)
    {
      CompletesStep(all, pre, cur, post, s, i, j, now[..j], t);
      assert now[..i] == now[..j] + now[j..][..i - j] == now[..j] + s[j..i];
      assert pre + now[..i] + t + post == pre + now[..j] + s[j..i] + t + post;
    }
  }

  /** The right side is done: go on with the left one. */
  lemma CompletesLeft(all: seq<Edge>, pre: seq<Edge>, cur: seq<Edge>, post: seq<Edge>, s: seq<Edge>,
                      i: nat, j: nat, now: seq<Edge>)
    requires Completes(all, pre, cur, post) && Perm(s, cur) && Cut(s, i, j) && |now| == |s|
    requires now[..i] == s[..i] && Perm(now[i..], s[i..]) && Rough(now[i..])
    ensures Completes(all, pre, now[..j], now[j..] + post)
  {
    hide Rough, Perm;
    assert now[..j] == now[..i][..j] == s[..j];
    forall t | Perm(t, now[..j]) && Rough(t)
      ensures Rough(pre + t + (now[j..] + post)) && Perm(pre + t + (now[j..] + post), all)
    {
      CompletesStep(all, pre, cur, post, s, i, j, t, now[i..]);
      assert now[j..] == now[..i][j..] + now[i..] == s[j..i] + now[i..];
      assert pre + t + (now[j..] + post) == pre + t + s[j..i] + now[i..] + post;
    }
  }

  /** The levels of recursion that suffice for n elements. */
  function Depth(n: nat): (d: nat)
    ensures n <= 12 * Pow2(d)
    ensures n > 12 ==> 6 * Pow2(d) < n
  {
    if n <= 12 then 0 else 1 + Depth((n + 1) / 2)
  }

  /** Bring the median to the front and partition. */
  method Split(a: array<Edge>, lo: nat, n: nat) returns (i: nat, j: nat)
    requires lo + n <= a.Length && 2 < n
    modifies a
    ensures a[..lo] == old(a[..lo]) && a[lo + n..] == old(a[lo + n..])
    ensures Perm(a[lo..lo + n], old(a[lo..lo + n])) && Cut(a[lo..lo + n], i, j)
  {
    hide Perm, Cut, HasStop, MedianFirst;
    ghost var before := a[lo..lo + n];
    MedianToFront(a, lo, n);
    MedianStops(before);
    ghost var front := a[lo..lo + n];
    assert a[lo] == front[0];
    i, j := Partition(a, lo, n);
    PermTrans(a[lo..lo + n], front, before);
  }

  /** Only positions lo to hi may differ. */
  ghost predicate Kept(s: seq<Edge>, t: seq<Edge>, lo: nat, hi: nat) {
    lo <= hi <= |s| == |t| && s[..lo] == t[..lo] && s[hi..] == t[hi..]
  }

  lemma KeptTrans(s: seq<Edge>, t: seq<Edge>, u: seq<Edge>, lo: nat, hi: nat)
    requires Kept(s, t, lo, hi) && Kept(t, u, lo, hi)
    ensures Kept(s, u, lo, hi)
  {
  }

  /** What lies outside p..q is unchanged piece by piece. */
  lemma Outside(s: seq<Edge>, t: seq<Edge>, lo: nat, p: nat, q: nat, hi: nat)
    requires lo <= p <= q <= hi <= |s| && Kept(s, t, p, q)
    ensures Kept(s, t, lo, hi) && s[lo..p] == t[lo..p] && s[q..hi] == t[q..hi]
  {
    assert s[..lo] == s[..p][..lo] && s[lo..p] == s[..p][lo..];
    assert s[hi..] == s[q..][hi - q..] && s[q..hi] == s[q..][..hi - q];
  }

  lemma Parts(s: seq<Edge>, lo: nat, p: nat, hi: nat)
    requires lo <= p <= hi <= |s|
    ensures s[lo..hi][..p - lo] == s[lo..p] && s[lo..hi][p - lo..] == s[p..hi]
    ensures s[lo..hi] == s[lo..p] + s[p..hi]
  {
  }

  /** What a call of the quicksort achieves: the segment is a rough permutation of what it was. */
  ghost predicate Roughened(s: seq<Edge>, t: seq<Edge>, lo: nat, n: nat) {
    Kept(s, t, lo, lo + n) && Perm(t[lo..lo + n], s[lo..lo + n]) && Rough(t[lo..lo + n])
  }

  /** What one round achieves: the segment was partitioned into s, then one side of it roughened. */
  ghost predicate HalfDone(w: seq<Edge>, w': seq<Edge>, lo: nat, n: nat, s: seq<Edge>, i: nat, j: nat, right: bool) {
    && Kept(w, w', lo, lo + n) && Perm(s, w[lo..lo + n]) && Cut(s, i, j) && |s| == n
    && var now := w'[lo..lo + n];
       if right then now[j..] == s[j..] && Perm(now[..j], s[..j]) && Rough(now[..j])
       else now[..i] == s[..i] && Perm(now[i..], s[i..]) && Rough(now[i..])
  }

  lemma LeftDone(w: seq<Edge>, u: seq<Edge>, w': seq<Edge>, lo: nat, n: nat, i: nat, j: nat)
    requires Kept(w, u, lo, lo + n) && Perm(u[lo..lo + n], w[lo..lo + n]) && Cut(u[lo..lo + n], i, j)
    requires Roughened(u, w', lo, j)
    ensures HalfDone(w, w', lo, n, u[lo..lo + n], i, j, true)
  {
    hide Rough, Perm, Kept;
    assert lo + n <= |u| == |w| by { KeptLength(w, u, lo, lo + n); }
    Outside(u, w', lo, lo, lo + j, lo + n);
    KeptLength(u, w', lo, lo + j);
    KeptTrans(w, u, w', lo, lo + n);
    Parts(u, lo, lo + j, lo + n);
    Parts(w', lo, lo + j, lo + n);
  }

  lemma RightDone(w: seq<Edge>, u: seq<Edge>, w': seq<Edge>, lo: nat, n: nat, i: nat, j: nat)
    requires Kept(w, u, lo, lo + n) && Perm(u[lo..lo + n], w[lo..lo + n]) && Cut(u[lo..lo + n], i, j)
    requires Roughened(u, w', lo + i, n - i)
    ensures HalfDone(w, w', lo, n, u[lo..lo + n], i, j, false)
  {
    hide Rough, Perm, Kept;
    assert lo + n <= |u| == |w| by { KeptLength(w, u, lo, lo + n); }
    Outside(u, w', lo, lo + i, lo + n, lo + n);
    KeptLength(u, w', lo + i, lo + n);
    KeptTrans(w, u, w', lo, lo + n);
    Parts(u, lo, lo + i, lo + n);
    Parts(w', lo, lo + i, lo + n);
  }

  lemma KeptLength(s: seq<Edge>, t: seq<Edge>, lo: nat, hi: nat)
    requires Kept(s, t, lo, hi)
    ensures lo <= hi <= |s| == |t|
  {
  }

  /** The loop's invariant: what is left to do is the segment of m elements at p. */
  ghost predicate Pending(w: seq<Edge>, w': seq<Edge>, lo: nat, n: nat, p: nat, m: nat) {
    && Kept(w, w', lo, lo + n) && lo <= p && p + m <= lo + n
    && Completes(w[lo..lo + n], w'[lo..p], w'[p..p + m], w'[p + m..lo + n])
  }

  lemma PendingFirst(w: seq<Edge>, lo: nat, n: nat)
    requires lo + n <= |w|
    ensures Pending(w, w, lo, n, lo, n)
  {
    CompletesFirst(w[lo..lo + n]);
  }

  lemma PendingRight(w: seq<Edge>, u: seq<Edge>, w': seq<Edge>, lo: nat, n: nat, p: nat, m: nat,
                     s: seq<Edge>, i: nat, j: nat)
    requires Pending(w, u, lo, n, p, m) && HalfDone(u, w', p, m, s, i, j, true)
    ensures 1 <= i < m && Pending(w, w', lo, n, p + i, m - i)
  {
    hide Rough, Perm, Kept, Completes;
    KeptLength(w, u, lo, lo + n);
    KeptLength(u, w', p, p + m);
    Outside(u, w', lo, p, p + m, lo + n);
    KeptTrans(w, u, w', lo, lo + n);
    CompletesRight(w[lo..lo + n], u[lo..p], u[p..p + m], u[p + m..lo + n], s, i, j, w'[p..p + m]);
    Parts(w', p, p + i, p + m);
    Parts(w', lo, p, p + i);
  }

  lemma PendingLeft(w: seq<Edge>, u: seq<Edge>, w': seq<Edge>, lo: nat, n: nat, p: nat, m: nat,
                    s: seq<Edge>, i: nat, j: nat)
    requires Pending(w, u, lo, n, p, m) && HalfDone(u, w', p, m, s, i, j, false)
    ensures j < m && Pending(w, w', lo, n, p, j)
  {
    hide Rough, Perm, Kept, Completes;
    KeptLength(w, u, lo, lo + n);
    KeptLength(u, w', p, p + m);
    Outside(u, w', lo, p, p + m, lo + n);
    KeptTrans(w, u, w', lo, lo + n);
    CompletesLeft(w[lo..lo + n], u[lo..p], u[p..p + m], u[p + m..lo + n], s, i, j, w'[p..p + m]);
    Parts(w', p, p + j, p + m);
    Parts(w', p + j, p + m, lo + n);
  }

  lemma PendingLast(w: seq<Edge>, w': seq<Edge>, lo: nat, n: nat, p: nat, m: nat)
    requires Pending(w, w', lo, n, p, m) && m <= 12
    ensures Roughened(w, w', lo, n)
  {
    hide Rough, Perm, Kept, Completes;
    KeptLength(w, w', lo, lo + n);
    Finish(w[lo..lo + n], w'[lo..p], w'[p..p + m], w'[p + m..lo + n]);
    Parts(w', lo, p, p + m);
    Parts(w', lo, p + m, lo + n);
  }

  /** One round of the loop: partition into s and sort the smaller side. */
  method Round(a: array<Edge>, lo: nat, n: nat, ghost depth: nat)
    returns (i: nat, j: nat, right: bool, ghost s: seq<Edge>)
    requires lo + n <= a.Length && 12 < n <= 12 * Pow2(depth)
    modifies a
    decreases depth, 0
    ensures HalfDone(old(a[..]), a[..], lo, n, s, i, j, right)
  {
    hide Perm, Rough, Roughened, HalfDone;
    ghost var w := a[..];
    i, j := Split(a, lo, n);
    ghost var u := a[..];
    assert Kept(w, u, lo, lo + n);
    s := a[lo..lo + n];
    right := j < n - i;
    if right {
      QuickSort(a, lo, j, depth - 1);
      LeftDone(w, u, a[..], lo, n, i, j);
    } else {
      QuickSort(a, lo + i, n - i, depth - 1);
      RightDone(w, u, a[..], lo, n, i, j);
    }
  }

  /**
   The quicksort. The recursion takes the smaller side, so `depth` levels do for 12 * 2^depth elements.
   */
  method QuickSort(a: array<Edge>, lo: nat, n: nat, ghost depth: nat)
    requires lo + n <= a.Length && n <= 12 * Pow2(depth)
    modifies a
    decreases depth, 1
    ensures Roughened(old(a[..]), a[..], lo, n)
  {
    hide Pending, HalfDone, Roughened;
    ghost var w := a[..];
    var p: nat, m: nat := lo, n;
    PendingFirst(w, lo, n);
    while m > 12
      invariant lo <= p && p + m <= lo + n
      invariant Pending(w, a[..], lo, n, p, m)
    {
      ghost var u := a[..];
      var i, j, right, s := Round(a, p, m, depth);
      if right {
        PendingRight(w, u, a[..], lo, n, p, m, s, i, j);
        p, m := p + i, m - i;
      } else {
        PendingLeft(w, u, a[..], lo, n, p, m, s, i, j);
        m := j;
      }
    }
    PendingLast(w, a[..], lo, n, p, m);
  }

  lemma Finish(all: seq<Edge>, pre: seq<Edge>, cur: seq<Edge>, post: seq<Edge>)
    requires Completes(all, pre, cur, post) && |cur| <= 12
    ensures Rough(pre + cur + post) && Perm(pre + cur + post, all)
  {
    PermRefl(cur);
    assert Rough(cur);
  }

  lemma MedianStops(s: seq<Edge>)
    requires 2 < |s|
    ensures var t := MedianFirst(s); Perm(t, s) && HasStop(t, 1, t[0].y0)
  {
    hide Perm;
    MedianIsBetween(s);
    var m := Swapped(s, MedianSource(s), |s| / 2);
    SwappedPerm(s, MedianSource(s), |s| / 2);
    SwappedPerm(m, 0, |s| / 2);
    PermTrans(MedianFirst(s), m, s);
  }

  /** The sort: a permutation in order of y0, with at most Depth(n) levels of recursion. */
  method SortEdges(a: array<Edge>, lo: nat, n: nat)
    requires lo + n <= a.Length
    modifies a
    ensures a[..lo] == old(a[..lo]) && a[lo + n..] == old(a[lo + n..])
    ensures Sorted(a[lo..lo + n]) && Perm(a[lo..lo + n], old(a[lo..lo + n]))
  {
    QuickSort(a, lo, n, Depth(n));
    InsSort(a, lo, n);
  }
}
