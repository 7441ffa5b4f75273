/** Division with rest, for the solver. */
module Arithmetic {

  lemma {:induction false} ProductGrows(a: nat, b: nat, d: nat)
    requires a <= b
    ensures a * d <= b * d
    decreases b - a
  {
    if a == b {
    } else {
      ProductGrows(a, b - 1, d);
      assert b * d == (b - 1) * d + d;
    }
  }

  lemma MoreWholeParts(q: nat, q': nat, d: nat)
    ensures q < q' ==> q * d + d <= q' * d
  {
    if q < q' {
      ProductGrows(q + 1, q', d);
      assert (q + 1) * d == q * d + d;
    }
  }

  lemma DivisionIsUnique(m: nat, d: nat, q: nat, r: nat)
    requires d > 0 && m == q * d + r && r < d
    ensures m / d == q && m % d == r
  {
    var q' := m / d;
    assert m == q' * d + m % d;
    MoreWholeParts(q, q', d);
    MoreWholeParts(q', q, d);
  }

  lemma QuotientAtLeast(m: nat, d: nat, q: nat)
    requires d > 0 && q * d <= m
    ensures q <= m / d
  {
    assert m == (m / d) * d + m % d;
    MoreWholeParts(m / d, q, d);
  }
}
