/** Strict total orders, the lexicographic order they induce on sequences, and sorting a finite
    set by such an order. Directory listings are visited in the order built here. */
module Orders {

  ghost predicate StrictTotalOrder<T(!new)>(less: (T, T) -> bool) {
    && (forall x :: !less(x, x))
    && (forall x, y, z :: less(x, y) && less(y, z) ==> less(x, z))
    && (forall x, y :: x != y ==> less(x, y) || less(y, x))
  }

  /** Lexicographic order: a proper prefix comes first, otherwise the first difference decides. */
  predicate LexLess<T(==)>(a: seq<T>, b: seq<T>, less: (T, T) -> bool)
    decreases |a|
  {
    if |b| == 0 then false
    else if |a| == 0 then true
    else if a[0] != b[0] then less(a[0], b[0])
    else LexLess(a[1..], b[1..], less)
  }

  lemma {:induction false} LexIrreflexive<T>(a: seq<T>, less: (T, T) -> bool)
    ensures !LexLess(a, a, less)
    decreases |a|
  {
    if |a| > 0 {
      LexIrreflexive(a[1..], less);
    }
  }

  lemma {:induction false} LexTransitive<T(!new)>(a: seq<T>, b: seq<T>, c: seq<T>, less: (T, T) -> bool)
    requires StrictTotalOrder(less)
    requires LexLess(a, b, less) && LexLess(b, c, less)
    ensures LexLess(a, c, less)
    decreases |a|
  {
    if |a| > 0 && a[0] == b[0] && b[0] == c[0] {
      LexTransitive(a[1..], b[1..], c[1..], less);
    }
  }

  lemma {:induction false} LexTotal<T(!new)>(a: seq<T>, b: seq<T>, less: (T, T) -> bool)
    requires StrictTotalOrder(less)
    requires a != b
    ensures LexLess(a, b, less) || LexLess(b, a, less)
    decreases |a|
  {
    if |a| > 0 && |b| > 0 && a[0] == b[0] {
      assert a == [a[0]] + a[1..] && b == [b[0]] + b[1..];
      LexTotal(a[1..], b[1..], less);
    }
  }

  /** A proper prefix is lexicographically smaller than the sequence it starts. */
  lemma {:induction false} LexPrefix<T>(a: seq<T>, b: seq<T>, less: (T, T) -> bool)
    requires |a| < |b| && b[..|a|] == a
    ensures LexLess(a, b, less)
    decreases |a|
  {
    if |a| > 0 {
      assert a[0] == b[0];
      assert b[1..][..|a| - 1] == a[1..];
      LexPrefix(a[1..], b[1..], less);
    }
  }

  /** A common prefix does not change the order. */
  lemma {:induction false} LexCommonPrefix<T>(p: seq<T>, a: seq<T>, b: seq<T>, less: (T, T) -> bool)
    ensures LexLess(p + a, p + b, less) == LexLess(a, b, less)
    decreases |p|
  {
    if |p| > 0 {
      assert (p + a)[0] == (p + b)[0] == p[0];
      assert (p + a)[1..] == p[1..] + a;
      assert (p + b)[1..] == p[1..] + b;
      LexCommonPrefix(p[1..], a, b, less);
    } else {
      assert p + a == a && p + b == b;
    }
  }

  /** The least element of a non-empty finite set. */
  ghost function Least<T(!new)>(s: set<T>, less: (T, T) -> bool): (m: T)
    requires s != {} && StrictTotalOrder(less)
    ensures m in s
    ensures forall y :: y in s && y != m ==> less(m, y)
    decreases |s|
  {
    var x :| x in s;
    if s == {x} then x
    else
      var m' := Least(s - {x}, less);
      LeastStep(s, x, m', less);
      if less(x, m') then x else m'
  }

  lemma LeastStep<T(!new)>(s: set<T>, x: T, m': T, less: (T, T) -> bool)
    requires StrictTotalOrder(less)
    requires x in s && m' in s - {x}
    requires forall y :: y in s - {x} && y != m' ==> less(m', y)
    ensures less(x, m') ==> forall y :: y in s && y != x ==> less(x, y)
    ensures !less(x, m') ==> forall y :: y in s && y != m' ==> less(m', y)
  {
    if less(x, m') {
      forall y | y in s && y != x
        ensures less(x, y)
      {
        if y != m' {
          assert less(m', y);
        }
      }
    }
  }

  predicate Increasing<T>(r: seq<T>, less: (T, T) -> bool) {
    forall i, j :: 0 <= i < j < |r| ==> less(r[i], r[j])
  }

  /** The elements of a finite set, each once, in increasing order. */
  ghost function Sort<T(!new)>(s: set<T>, less: (T, T) -> bool): (r: seq<T>)
    requires StrictTotalOrder(less)
    ensures |r| == |s|
    ensures forall x :: x in r <==> x in s
    ensures Increasing(r, less)
    decreases |s|
  {
    if s == {} then []
    else
      var m := Least(s, less);
      [m] + Sort(s - {m}, less)
  }

  /** An increasing sequence never repeats an element. */
  lemma IncreasingDistinct<T(!new)>(r: seq<T>, less: (T, T) -> bool, i: int, j: int)
    requires StrictTotalOrder(less) && Increasing(r, less)
    requires 0 <= i < |r| && 0 <= j < |r| && i != j
    ensures r[i] != r[j]
  {
    if i < j { assert less(r[i], r[j]); } else { assert less(r[j], r[i]); }
  }
}
