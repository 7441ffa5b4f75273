/** Facts about sequences that several components need. */
module Sequences {

  ghost predicate Distinct<T>(s: seq<T>) {
    forall i, j :: 0 <= i < j < |s| ==> s[i] != s[j]
  }

  lemma {:induction false} DistinctCountsOnce<T>(s: seq<T>, x: T)
    requires Distinct(s)
    ensures multiset(s)[x] <= 1
  {
    if s == [] {
    } else {
      var init := s[..|s| - 1];
      assert s == init + [s[|s| - 1]];
      DistinctCountsOnce(init, x);
      if s[|s| - 1] == x {
        assert x !in init;
        assert x !in multiset(init);
      }
    }
  }

  /** A permutation of a duplicate-free list is duplicate-free. */
  lemma DistinctPermutation<T>(s: seq<T>, t: seq<T>)
    requires Distinct(s) && multiset(s) == multiset(t)
    ensures Distinct(t)
  {
    forall i, j | 0 <= i < j < |t| ensures t[i] != t[j] {
      DistinctCountsOnce(s, t[j]);
      assert t == t[..j] + [t[j]] + t[j + 1..];
      assert multiset(t) == multiset(t[..j]) + multiset{t[j]} + multiset(t[j + 1..]);
      assert t[j] !in t[..j];
      assert t[i] in t[..j];
    }
  }

  /** The number of distinct elements is the length of a duplicate-free list of them. */
  lemma {:induction false} DistinctCardinality<T>(s: seq<T>)
    requires Distinct(s)
    ensures |set x | x in s| == |s|
  {
    if s == [] {
      assert (set x | x in s) == {};
    } else {
      var init, last := s[..|s| - 1], s[|s| - 1];
      DistinctCardinality(init);
      assert s == init + [last];
      assert last !in init;
      assert (set x | x in s) == (set x | x in init) + {last};
    }
  }

  lemma DistinctSplit<T>(s: seq<T>, i: nat)
    requires Distinct(s) && i < |s|
    ensures s[i] !in s[..i]
    ensures s[..i + 1] == s[..i] + [s[i]]
  {
  }

  lemma MoveOver<T>(kept: seq<T>, s: seq<T>, i: nat)
    requires i < |s|
    ensures kept + s[i..] == kept + [s[i]] + s[i + 1..]
  {
  }

  lemma DistinctConcat<T>(a: seq<T>, b: seq<T>)
    requires Distinct(a) && Distinct(b)
    requires forall x :: x in b ==> x !in a
    ensures Distinct(a + b)
  {
    var all := a + b;
    forall i, j | 0 <= i < j < |all| ensures all[i] != all[j] {
      if i < |a| <= j {
        assert all[j] in b && all[i] in a;
      }
    }
  }

  lemma ConcatAssociates<T>(a: seq<T>, b: seq<T>, c: seq<T>)
    ensures a + b + c == a + (b + c)
  {
  }

  lemma {:induction false} SubsetSize<T>(a: set<T>, b: set<T>)
    requires a <= b
    ensures |a| <= |b|
  {
    if a == {} {
    } else {
      var x :| x in a;
      SubsetSize(a - {x}, b - {x});
    }
  }

  /** The elements of a set in some order. */
  method Collect<T(==)>(s: set<T>) returns (q: seq<T>)
    ensures Distinct(q) && |q| == |s|
    ensures forall x :: x in q <==> x in s
  {
    q := [];
    var rest := s;
    while rest != {}
      invariant rest <= s && Distinct(q) && |q| + |rest| == |s|
      invariant forall x :: x in q <==> x in s - rest
      decreases rest
    {
      var x :| x in rest;
      assert x !in q;
      rest := rest - {x};
      q := q + [x];
    }
  }
}
