/**
 Ordering by descending score. The three rankings of the repository (the store query, the merged
 lookup, the learned-expertise shortlist) all sort a list of scored items in place.
 */
module Ranking {
  import Sequences

  datatype Scored<T> = Scored(item: T, score: real)

  ghost predicate Descending<T>(s: seq<Scored<T>>) {
    forall i, j :: 0 <= i < j < |s| ==> s[i].score >= s[j].score
  }

  /** `x` placed behind every element of a descending `s` that scores at least as much. */
  function InsertDesc<T>(s: seq<Scored<T>>, x: Scored<T>): seq<Scored<T>> {
    if s == [] || s[|s| - 1].score >= x.score then s + [x]
    else InsertDesc(s[..|s| - 1], x) + [s[|s| - 1]]
  }

  /** The stable descending sort of `s`. */
  function StableDesc<T>(s: seq<Scored<T>>): seq<Scored<T>> {
    if s == [] then []
    else InsertDesc(StableDesc(s[..|s| - 1]), s[|s| - 1])
  }

  /** The elements of `s` with score `v`, in order. */
  function WithScore<T>(s: seq<Scored<T>>, v: real): seq<Scored<T>> {
    if s == [] then []
    else WithScore(s[..|s| - 1], v) + (if s[|s| - 1].score == v then [s[|s| - 1]] else [])
  }

  lemma {:induction false} InsertDescMultiset<T>(s: seq<Scored<T>>, x: Scored<T>)
    ensures multiset(InsertDesc(s, x)) == multiset(s) + multiset{x}
  {
    if s == [] || s[|s| - 1].score >= x.score {
    } else {
      var init, last := s[..|s| - 1], s[|s| - 1];
      assert s == init + [last];
      InsertDescMultiset(init, x);
    }
  }

  lemma {:induction false} InsertDescDescending<T>(s: seq<Scored<T>>, x: Scored<T>)
    requires Descending(s)
    ensures Descending(InsertDesc(s, x))
  {
    if s == [] || s[|s| - 1].score >= x.score {
    } else {
      var init, last := s[..|s| - 1], s[|s| - 1];
      InsertDescDescending(init, x);
      InsertDescMultiset(init, x);
      var r := InsertDesc(init, x);
      forall k | 0 <= k < |r| ensures r[k].score >= last.score {
        assert r[k] in multiset(r);
        assert r[k] in init || r[k] == x;
      }
    }
  }

  lemma {:induction false} StableDescSorts<T>(s: seq<Scored<T>>)
    ensures multiset(StableDesc(s)) == multiset(s)
    ensures |StableDesc(s)| == |s|
    ensures Descending(StableDesc(s))
  {
    if s == [] {
    } else {
      var init, last := s[..|s| - 1], s[|s| - 1];
      assert s == init + [last];
      StableDescSorts(init);
      InsertDescMultiset(StableDesc(init), last);
      InsertDescDescending(StableDesc(init), last);
      assert |multiset(StableDesc(s))| == |multiset(s)|;
    }
  }

  /** Sorting keeps the elements, and keeps them distinct. */
  lemma StableDescMembers<T>(s: seq<Scored<T>>)
    ensures forall e :: e in StableDesc(s) <==> e in s
    ensures Sequences.Distinct(s) ==> Sequences.Distinct(StableDesc(s))
  {
    var t := StableDesc(s);
    StableDescSorts(s);
    forall e ensures e in t <==> e in s {
      assert e in multiset(t) <==> e in multiset(s);
    }
    if Sequences.Distinct(s) {
      Sequences.DistinctPermutation(s, t);
    }
  }

  lemma {:induction false} InsertDescStable<T>(s: seq<Scored<T>>, x: Scored<T>, v: real)
    requires Descending(s)
    ensures WithScore(InsertDesc(s, x), v) == WithScore(s + [x], v)
  {
    if s == [] || s[|s| - 1].score >= x.score {
    } else {
      var init, last := s[..|s| - 1], s[|s| - 1];
      var r := InsertDesc(init, x);
      InsertDescStable(init, x, v);
      assert (r + [last])[..|r|] == r;
      assert (init + [x])[..|init|] == init;
      assert (s + [x])[..|s|] == s;
      if v == x.score {
        assert last.score != v;
      }
    }
  }

  /** Items of equal score keep their relative order. */
  lemma {:induction false} StableDescIsStable<T>(s: seq<Scored<T>>, v: real)
    ensures WithScore(StableDesc(s), v) == WithScore(s, v)
  {
    if s == [] {
    } else {
      var init, last := s[..|s| - 1], s[|s| - 1];
      StableDescIsStable(init, v);
      StableDescSorts(init);
      InsertDescStable(StableDesc(init), last, v);
      var r := StableDesc(init);
      assert (r + [last])[..|r|] == r;
    }
  }

  lemma {:induction false} WithScoreMembers<T>(s: seq<Scored<T>>, v: real)
    ensures forall e :: e in WithScore(s, v) <==> e in s && e.score == v
    ensures Sequences.Distinct(s) ==> Sequences.Distinct(WithScore(s, v))
  {
    if s == [] {
    } else {
      WithScoreMembers(s[..|s| - 1], v);
      assert s == s[..|s| - 1] + [s[|s| - 1]];
    }
  }

  lemma {:induction false} OrderInWithScore<T>(s: seq<Scored<T>>, v: real, i: nat, j: nat) returns (p: nat, q: nat)
    requires i < j < |s| && s[i].score == v == s[j].score
    ensures p < q < |WithScore(s, v)| && WithScore(s, v)[p] == s[i] && WithScore(s, v)[q] == s[j]
  {
    var init := s[..|s| - 1];
    if j < |init| {
      p, q := OrderInWithScore(init, v, i, j);
    } else {
      WithScoreMembers(init, v);
      assert init[i] in init;
      p :| 0 <= p < |WithScore(init, v)| && WithScore(init, v)[p] == init[i];
      q := |WithScore(init, v)|;
    }
  }

  /** Of two elements with the same score the one that came first stays first. */
  lemma EqualScoresKeepOrder<T>(s: seq<Scored<T>>, i: nat, j: nat, k: nat, l: nat)
    requires Sequences.Distinct(s) && i < j < |s| && s[i].score == s[j].score
    requires k < |StableDesc(s)| && l < |StableDesc(s)| && StableDesc(s)[k] == s[i] && StableDesc(s)[l] == s[j]
    ensures k < l
  {
    var v, t := s[i].score, StableDesc(s);
    StableDescIsStable(s, v);
    WithScoreMembers(s, v);
    var p, q := OrderInWithScore(s, v, i, j);
    if l < k {
      var q', p' := OrderInWithScore(t, v, l, k);
    }
  }

  /** The items of the first `n` entries. */
  function FirstItems<T>(s: seq<Scored<T>>, n: nat): (r: seq<T>)
    ensures |r| == if |s| <= n then |s| else n
    ensures forall i :: 0 <= i < |r| ==> r[i] == s[i].item
  {
    seq(if |s| <= n then |s| else n, i requires 0 <= i < |s| => s[i].item)
  }

  /** The entries left out by a cut of a descending list score no more than those kept. */
  lemma CutKeepsTheBest<T>(t: seq<Scored<T>>, n: nat, e: Scored<T>, j: nat)
    requires Descending(t) && e in t && j < |FirstItems(t, n)|
    requires e.item !in FirstItems(t, n)
    ensures t[j].score >= e.score
  {
    var us := FirstItems(t, n);
    var k :| 0 <= k < |t| && t[k] == e;
    assert forall i :: 0 <= i < |us| ==> us[i] != e.item;
  }

  /** `x` goes to index `j` when `s[j..]` scores lower and what is before `j` does not. */
  lemma {:induction false} InsertDescAt<T>(s: seq<Scored<T>>, x: Scored<T>, j: nat)
    requires j <= |s|
    requires j > 0 ==> s[j - 1].score >= x.score
    requires forall k :: j <= k < |s| ==> s[k].score < x.score
    ensures InsertDesc(s, x) == s[..j] + [x] + s[j..]
  {
    if j == |s| {
    } else {
      var init := s[..|s| - 1];
      InsertDescAt(init, x, j);
      assert init[..j] == s[..j] && init[j..] + [s[|s| - 1]] == s[j..];
    }
  }

  /** Moves `a[i]` left into its place among `a[..i]`. */
  method InsertInPlace<T>(a: array<Scored<T>>, i: nat)
    requires i < a.Length
    modifies a
    ensures a[..i + 1] == InsertDesc(old(a[..i]), old(a[i]))
    ensures a[i + 1..] == old(a[i + 1..])
  {
    var x := a[i];
    var j := i;
    while j > 0 && a[j - 1].score < x.score
      invariant 0 <= j <= i
      invariant forall k :: 0 <= k < j ==> a[k] == old(a[k])
      invariant forall k :: j < k <= i ==> a[k] == old(a[k - 1]) && a[k].score < x.score
      invariant forall k :: i < k < a.Length ==> a[k] == old(a[k])
    {
      a[j] := a[j - 1];
      j := j - 1;
    }
    a[j] := x;
    ghost var s := old(a[..i]);
    forall k | j <= k < i ensures s[k] == a[k + 1] {
    }
    InsertDescAt(s, x, j);
    forall k | 0 <= k <= i ensures a[k] == (s[..j] + [x] + s[j..])[k] {
    }
    assert a[..i + 1] == s[..j] + [x] + s[j..];
  }

  /** In-place stable insertion sort by descending score. */
  method SortDescending<T>(a: array<Scored<T>>)
    modifies a
    ensures a[..] == StableDesc(old(a[..]))
  {
    ghost var s := a[..];
    var i := 0;
    while i < a.Length
      invariant 0 <= i <= a.Length
      invariant a[..i] == StableDesc(s[..i])
      invariant a[i..] == s[i..]
    {
      ghost var rest := a[i..];
      assert a[i] == rest[0] == s[i] && s[..i + 1][..i] == s[..i];
      assert a[i + 1..] == rest[1..] == s[i + 1..];
      InsertInPlace(a, i);
      i := i + 1;
    }
    assert s[..i] == s && a[..i] == a[..];
  }
}
