/** Sequences without repetition. */
module Sequences {
  ghost predicate Distinct<T>(s: seq<T>) {
    forall i, j :: 0 <= i < j < |s| ==> s[i] != s[j]
  }

  lemma {:induction false} Pigeonhole(s: seq<int>, n: nat)
    requires Distinct(s) && forall p :: p in s ==> 0 <= p < n
    ensures |s| <= n
  {
    if n == 0 {
      assert forall i :: 0 <= i < |s| ==> s[i] in s;
    } else if n - 1 in s {
      var i :| 0 <= i < |s| && s[i] == n - 1;
      var rest := s[..i] + s[i + 1..];
      forall p | p in rest
        ensures 0 <= p < n - 1
      {
        var j :| 0 <= j < |rest| && rest[j] == p;
        assert p == s[if j < i then j else j + 1] && p in s;
      }
      Pigeonhole(rest, n - 1);
    } else {
      Pigeonhole(s, n - 1);
    }
  }

  /** Dropping one element, which then is gone. */
  lemma DistinctWithout<T(!new)>(s: seq<T>, i: nat)
    requires Distinct(s) && i < |s|
    ensures var r := s[..i] + s[i + 1..];
            Distinct(r) && s[i] !in r && (forall x :: x in r <==> x in s && x != s[i])
  {
    var r := s[..i] + s[i + 1..];
    assert forall j :: 0 <= j < |r| ==> r[j] == s[if j < i then j else j + 1];
    forall x | x in s && x != s[i]
      ensures x in r
    {
      var j :| 0 <= j < |s| && s[j] == x;
      assert x == r[if j < i then j else j - 1];
    }
  }

  /** A sequence that contains every number below n has at least n elements. */
  lemma {:induction false} Covering(s: seq<int>, n: nat)
    requires forall k :: 0 <= k < n ==> k in s
    ensures n <= |s|
  {
    if n > 0 {
      assert n - 1 in s;
      var i :| 0 <= i < |s| && s[i] == n - 1;
      var r := s[..i] + s[i + 1..];
      forall k | 0 <= k < n - 1
        ensures k in r
      {
        assert k in s;
        var j :| 0 <= j < |s| && s[j] == k;
        assert k == r[if j < i then j else j - 1];
      }
      Covering(r, n - 1);
    }
  }

  lemma DistinctConcat<T(!new)>(s: seq<T>, t: seq<T>)
    requires Distinct(s) && Distinct(t) && forall x :: x in s ==> x !in t
    ensures Distinct(s + t)
  {
    forall i, j | 0 <= i < j < |s + t|
      ensures (s + t)[i] != (s + t)[j]
    {
      if i < |s| <= j {
        assert s[i] in s && t[j - |s|] in t;
      }
    }
  }
}
