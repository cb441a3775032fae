/** `Array.prototype.filter` and the sub-list relation it establishes. */
module Lists {

  /** `a` is `b` with some elements deleted, the rest kept in order. */
  predicate IsSublist<T(==)>(a: seq<T>, b: seq<T>)
    decreases |b|
  {
    if a == [] then true
    else if b == [] then false
    else (a[0] == b[0] && IsSublist(a[1..], b[1..])) || IsSublist(a, b[1..])
  }

  lemma {:induction false} SublistRefl<T>(a: seq<T>)
    ensures IsSublist(a, a)
  {
    if a != [] { SublistRefl(a[1..]); }
  }

  lemma {:induction false} SublistTrans<T>(a: seq<T>, b: seq<T>, c: seq<T>)
    requires IsSublist(a, b) && IsSublist(b, c)
    ensures IsSublist(a, c)
    decreases |c|
  {
    if a == [] {
    } else if a[0] == b[0] && IsSublist(a[1..], b[1..]) {
      if b[0] == c[0] && IsSublist(b[1..], c[1..]) {
        SublistTrans(a[1..], b[1..], c[1..]);
      } else {
        SublistTrans(a, b, c[1..]);
      }
    } else {
      if b[0] == c[0] && IsSublist(b[1..], c[1..]) {
        SublistTrans(a, b[1..], c[1..]);
      } else {
        SublistTrans(a, b, c[1..]);
      }
    }
  }

  /** Every element of a sub-list is an element of the list. */
  lemma {:induction false} SublistMembers<T>(a: seq<T>, b: seq<T>)
    requires IsSublist(a, b)
    ensures forall x :: x in a ==> x in b
    decreases |b|
  {
    if a != [] {
      if a[0] == b[0] && IsSublist(a[1..], b[1..]) {
        SublistMembers(a[1..], b[1..]);
        assert forall x :: x in a ==> x == a[0] || x in a[1..];
      } else {
        SublistMembers(a, b[1..]);
      }
    }
  }

  /** No two positions of `xs` share a key. */
  predicate DistinctBy<T, K(==)>(xs: seq<T>, key: T -> K) {
    forall i, j :: 0 <= i < j < |xs| ==> key(xs[i]) != key(xs[j])
  }

  /** Deleting elements keeps the keys distinct. */
  lemma {:induction false} SublistKeepsDistinct<T, K>(a: seq<T>, b: seq<T>, key: T -> K)
    requires IsSublist(a, b) && DistinctBy(b, key)
    ensures DistinctBy(a, key)
    decreases |b|
  {
    if a != [] {
      assert DistinctBy(b[1..], key);
      if a[0] == b[0] && IsSublist(a[1..], b[1..]) {
        SublistKeepsDistinct(a[1..], b[1..], key);
        SublistMembers(a[1..], b[1..]);
        forall i, j | 0 <= i < j < |a| ensures key(a[i]) != key(a[j]) {
          if i == 0 {
            assert a[j] in b[1..] by { assert a[j] == a[1..][j - 1]; }
            var m :| 0 <= m < |b[1..]| && b[1..][m] == a[j];
            assert b[m + 1] == a[j];
          } else {
            assert a[i] == a[1..][i - 1] && a[j] == a[1..][j - 1];
          }
        }
      } else {
        SublistKeepsDistinct(a, b[1..], key);
      }
    }
  }

  /**
   * `xs.filter(keep)`: the elements of `xs` that satisfy `keep`, in their
   * original order, each as often as it occurs in `xs`.
   */
  function Filter<T(!new)>(xs: seq<T>, keep: T -> bool): (r: seq<T>)
    ensures IsSublist(r, xs)
    ensures forall x :: x in r <==> x in xs && keep(x)
    ensures forall x :: multiset(r)[x] == if keep(x) then multiset(xs)[x] else 0
  {
    if xs == [] then []
    else
      var rest := Filter(xs[1..], keep);
      assert xs == [xs[0]] + xs[1..];
      if keep(xs[0]) then [xs[0]] + rest else rest
  }

  /** Filtering is idempotent: what it kept, it keeps. */
  lemma {:induction false} FilterIdempotent<T(!new)>(xs: seq<T>, keep: T -> bool)
    ensures Filter(Filter(xs, keep), keep) == Filter(xs, keep)
  {
    if xs != [] {
      FilterIdempotent(xs[1..], keep);
      if keep(xs[0]) {
        assert ([xs[0]] + Filter(xs[1..], keep))[1..] == Filter(xs[1..], keep);
      }
    }
  }

}
