/** Strict orders, lexicographic comparison and sorting. */
module Ordering {

  ghost predicate StrictOrder<T(!new)>(less: (T, T) -> bool) {
    (forall x :: !less(x, x)) && (forall x, y, z :: less(x, y) && less(y, z) ==> less(x, z))
  }

  ghost predicate Total<T(!new)>(less: (T, T) -> bool) {
    forall x, y :: x == y || less(x, y) || less(y, x)
  }

  predicate LexLess<T(==)>(a: seq<T>, b: seq<T>, less: (T, T) -> bool) {
    b != [] && (a == [] || less(a[0], b[0]) || (a[0] == b[0] && LexLess(a[1..], b[1..], less)))
  }

  lemma {:induction false} LexIrreflexive<T(!new)>(a: seq<T>, less: (T, T) -> bool)
    requires StrictOrder(less)
    ensures !LexLess(a, a, less)
  {
    if a != [] {
      LexIrreflexive(a[1..], less);
    }
  }

  lemma {:induction false} LexTransitive<T(!new)>(a: seq<T>, b: seq<T>, c: seq<T>, less: (T, T) -> bool)
    requires StrictOrder(less) && LexLess(a, b, less) && LexLess(b, c, less)
    ensures LexLess(a, c, less)
  {
    if a != [] && a[0] == b[0] == c[0] {
      LexTransitive(a[1..], b[1..], c[1..], less);
    }
  }

  lemma {:induction false} LexTotal<T(!new)>(a: seq<T>, b: seq<T>, less: (T, T) -> bool)
    requires Total(less)
    ensures a == b || LexLess(a, b, less) || LexLess(b, a, less)
  {
    if a != [] && b != [] && a[0] == b[0] {
      LexTotal(a[1..], b[1..], less);
      assert a == [a[0]] + a[1..] && b == [b[0]] + b[1..];
    }
  }

  /** Whatever sorts between a sequence and one of its extensions is an extension too. */
  lemma {:induction false} LexBetween<T(!new)>(a: seq<T>, b: seq<T>, c: seq<T>, less: (T, T) -> bool)
    requires StrictOrder(less) && a <= c && LexLess(a, b, less) && LexLess(b, c, less)
    ensures a < b
  {
    if a != [] {
      assert a[0] == c[0] == b[0];
      LexBetween(a[1..], b[1..], c[1..], less);
      assert a == [a[0]] + a[1..] && b == [b[0]] + b[1..];
    }
  }

  lemma {:induction false} LexExtends<T(!new)>(a: seq<T>, b: seq<T>, less: (T, T) -> bool)
    requires a < b
    ensures LexLess(a, b, less)
  {
    if a != [] {
      LexExtends(a[1..], b[1..], less);
    }
  }

  /** A common prefix does not matter. */
  lemma {:induction false} LexSamePrefix<T(!new)>(p: seq<T>, a: seq<T>, b: seq<T>, less: (T, T) -> bool)
    requires StrictOrder(less)
    ensures LexLess(p + a, p + b, less) <==> LexLess(a, b, less)
  {
    if p == [] {
      assert p + a == a && p + b == b;
    } else {
      assert (p + a)[1..] == p[1..] + a && (p + b)[1..] == p[1..] + b;
      LexSamePrefix(p[1..], a, b, less);
    }
  }

  // ---- strings, in code-point order ----

  predicate CharLess(a: char, b: char) { a < b }

  predicate StrLess(a: string, b: string) { LexLess(a, b, CharLess) }

  predicate DiffersAt(a: string, b: string, k: int) {
    0 <= k < |a| && k < |b| && a[..k] == b[..k] && a[k] != b[k]
  }

  /** The usual order of names: a proper prefix comes first, otherwise the smaller code point where the
      two first differ. */
  ghost predicate Before(a: string, b: string) {
    a < b || exists k :: DiffersAt(a, b, k) && a[k] as int < b[k] as int
  }

  lemma {:induction false} StrLessIs(a: string, b: string)
    ensures StrLess(a, b) <==> Before(a, b)
    decreases a
  {
    if a != [] && b != [] {
      if a[0] != b[0] {
        assert DiffersAt(a, b, 0);
        assert forall k :: DiffersAt(a, b, k) && k > 0 ==> a[..k][0] == b[..k][0];
      } else {
        StrLessIs(a[1..], b[1..]);
        assert a == [a[0]] + a[1..] && b == [b[0]] + b[1..];
        if k :| DiffersAt(a[1..], b[1..], k) && a[1..][k] as int < b[1..][k] as int {
          assert a[..k + 1] == [a[0]] + a[1..][..k] && b[..k + 1] == [b[0]] + b[1..][..k];
          assert DiffersAt(a, b, k + 1);
        }
        if k :| DiffersAt(a, b, k) && a[k] as int < b[k] as int {
          assert a[1..][..k - 1] == a[..k][1..] && b[1..][..k - 1] == b[..k][1..];
          assert DiffersAt(a[1..], b[1..], k - 1);
        }
      }
    }
  }

  lemma StrOrder()
    ensures StrictOrder(StrLess) && Total(StrLess)
  {
    assert StrictOrder(CharLess) && Total(CharLess);
    forall a: string ensures !StrLess(a, a) {
      LexIrreflexive(a, CharLess);
    }
    forall a: string, b: string, c: string | StrLess(a, b) && StrLess(b, c) ensures StrLess(a, c) {
      LexTransitive(a, b, c, CharLess);
    }
    forall a: string, b: string ensures a == b || StrLess(a, b) || StrLess(b, a) {
      LexTotal(a, b, CharLess);
    }
  }

  // ---- ascending sequences ----

  ghost predicate Ascending<T(!new)>(xs: seq<T>, less: (T, T) -> bool) {
    forall i, j :: 0 <= i < j < |xs| ==> less(xs[i], xs[j])
  }

  /** An ascending sequence is determined by its elements. */
  lemma {:induction false} AscendingUnique<T(!new)>(xs: seq<T>, ys: seq<T>, less: (T, T) -> bool)
    requires StrictOrder(less) && Ascending(xs, less) && Ascending(ys, less)
    requires forall x :: x in xs <==> x in ys
    ensures xs == ys
  {
    if xs == [] {
      assert forall i :: 0 <= i < |ys| ==> ys[i] in ys;
    } else {
      assert xs[0] in xs;
      assert ys[0] in ys;
      assert xs[0] == ys[0];
      forall x | x in xs[1..] ensures x in ys[1..] {
        assert x in ys && x != ys[0];
      }
      forall y | y in ys[1..] ensures y in xs[1..] {
        assert y in xs && y != xs[0];
      }
      AscendingUnique(xs[1..], ys[1..], less);
    }
  }

  // ---- sorting by key ----

  ghost predicate Sorted<T(!new), K(!new)>(xs: seq<T>, key: T -> K, less: (K, K) -> bool) {
    forall i, j :: 0 <= i < j < |xs| ==> !less(key(xs[j]), key(xs[i]))
  }

  method SortByKey<T(!new), K(!new)>(xs: seq<T>, key: T -> K, less: (K, K) -> bool) returns (ys: seq<T>)
    requires StrictOrder(less) && Total(less)
    ensures Sorted(ys, key, less) && multiset(ys) == multiset(xs)
  {
    ys := [];
    for i := 0 to |xs|
      invariant Sorted(ys, key, less) && multiset(ys) == multiset(xs[..i])
    {
      var n := |ys|;
      while n > 0 && less(key(xs[i]), key(ys[n - 1]))
        invariant 0 <= n <= |ys|
        invariant forall j :: n <= j < |ys| ==> less(key(xs[i]), key(ys[j]))
      {
        n := n - 1;
      }
      assert ys == ys[..n] + ys[n..];
      assert xs[..i + 1] == xs[..i] + [xs[i]];
      assert Sorted(ys[..n] + [xs[i]] + ys[n..], key, less) by {
        SortedInsert(ys, xs[i], n, key, less);
      }
      ys := ys[..n] + [xs[i]] + ys[n..];
    }
    assert xs[..|xs|] == xs;
  }

  lemma SortedInsert<T(!new), K(!new)>(ys: seq<T>, x: T, n: nat, key: T -> K, less: (K, K) -> bool)
    requires StrictOrder(less) && Total(less) && Sorted(ys, key, less) && n <= |ys|
    requires n > 0 ==> !less(key(x), key(ys[n - 1]))
    requires forall j :: n <= j < |ys| ==> less(key(x), key(ys[j]))
    ensures Sorted(ys[..n] + [x] + ys[n..], key, less)
  {
  }

  /** The iteration order of a BTreeSet. */
  method InOrder(s: set<string>) returns (xs: seq<string>)
    ensures Ascending(xs, StrLess) && forall x :: x in xs <==> x in s
  {
    StrOrder();
    var rest, picked := s, [];
    while rest != {}
      invariant rest <= s && (forall x :: x in picked <==> x in s - rest)
      invariant forall i, j :: 0 <= i < j < |picked| ==> picked[i] != picked[j]
      decreases rest
    {
      var x :| x in rest;
      rest, picked := rest - {x}, picked + [x];
    }
    xs := SortByKey(picked, x => x, StrLess);
    DistinctPermutation(picked, xs);
    assert forall x :: x in xs <==> x in multiset(xs);
    assert forall x :: x in picked <==> x in multiset(picked);
  }

  lemma {:induction false} DistinctPermutation<T>(xs: seq<T>, ys: seq<T>)
    requires multiset(xs) == multiset(ys)
    requires forall i, j :: 0 <= i < j < |xs| ==> xs[i] != xs[j]
    ensures forall i, j :: 0 <= i < j < |ys| ==> ys[i] != ys[j]
  {
    forall i, j | 0 <= i < j < |ys| ensures ys[i] != ys[j] {
      if ys[i] == ys[j] {
        assert ys == ys[..i] + [ys[i]] + ys[i + 1..j] + [ys[j]] + ys[j + 1..];
        assert multiset(ys)[ys[i]] >= 2;
        DistinctOnce(xs, ys[i]);
      }
    }
  }

  lemma {:induction false} DistinctOnce<T>(xs: seq<T>, x: T)
    requires forall i, j :: 0 <= i < j < |xs| ==> xs[i] != xs[j]
    ensures multiset(xs)[x] <= 1
  {
    if xs != [] {
      DistinctOnce(xs[1..], x);
      assert xs == [xs[0]] + xs[1..];
      assert xs[0] == x ==> x !in xs[1..];
    }
  }
}
