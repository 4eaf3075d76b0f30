/** Cancelling in sums of multisets. */
module Multisets {

  lemma Plus<T>(g: multiset<T>, q: multiset<T>, h: multiset<T>, x: multiset<T>)
    requires h + q == g + (q + x)
    ensures h == g + x
  {
    assert forall e :: h[e] + q[e] == (h + q)[e] && g[e] + q[e] + x[e] == (g + (q + x))[e];
  }

  lemma Minus<T>(g: multiset<T>, q: multiset<T>, h: multiset<T>, x: multiset<T>)
    requires h + (q + x) == g + q
    ensures h + x == g
  {
    assert forall e :: h[e] + q[e] + x[e] == (h + (q + x))[e] && g[e] + q[e] == (g + q)[e];
  }

  lemma Cancel<T>(g: multiset<T>, q: multiset<T>, h: multiset<T>, r: multiset<T>, x: multiset<T>)
    requires h + q == g + r && q == x + r
    ensures h + x == g
  {
    assert forall e :: h[e] + q[e] == (h + q)[e] && g[e] + r[e] == (g + r)[e];
    assert forall e :: q[e] == x[e] + r[e];
  }

  lemma Same<T>(g: multiset<T>, q: multiset<T>, h: multiset<T>)
    requires h + q == g + q
    ensures h == g
  {
    assert forall e :: h[e] + q[e] == (h + q)[e] && g[e] + q[e] == (g + q)[e];
  }
}
