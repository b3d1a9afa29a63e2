/** Sequence helpers shared by the models: the JavaScript `filter`, the `[...new Set(xs)]`
    de-duplication, occurrence counts, and sums over a list of distinct keys. */
module Seqs {

  /** `xs.filter(p)`: the order-preserving subsequence of the elements satisfying `p`. */
  function Filter<T>(s: seq<T>, p: T -> bool): (r: seq<T>)
    ensures |r| <= |s|
  {
    if s == [] then []
    else Filter(s[..|s| - 1], p) + (if p(s[|s| - 1]) then [s[|s| - 1]] else [])
  }

  /** The filtered sequence holds exactly the elements that satisfy `p`. */
  lemma {:induction false} FilterMembers<T>(s: seq<T>, p: T -> bool)
    ensures forall x :: x in Filter(s, p) ==> x in s && p(x)
    ensures forall x :: x in s && p(x) ==> x in Filter(s, p)
  {
    if s != [] {
      var s' := s[..|s| - 1];
      FilterMembers(s', p);
      assert s == s' + [s[|s| - 1]];
    }
  }

  lemma {:induction false} FilterConcat<T>(a: seq<T>, b: seq<T>, p: T -> bool)
    ensures Filter(a + b, p) == Filter(a, p) + Filter(b, p)
  {
    if b == [] {
      assert a + b == a;
    } else {
      var b' := b[..|b| - 1];
      assert (a + b)[..|a + b| - 1] == a + b';
      FilterConcat(a, b', p);
    }
  }

  lemma {:induction false} FilterAll<T>(s: seq<T>, p: T -> bool)
    requires forall x :: x in s ==> p(x)
    ensures Filter(s, p) == s
  {
    if s != [] {
      FilterAll(s[..|s| - 1], p);
      assert s[..|s| - 1] + [s[|s| - 1]] == s;
    }
  }

  lemma {:induction false} FilterNone<T>(s: seq<T>, p: T -> bool)
    requires forall x :: x in s ==> !p(x)
    ensures Filter(s, p) == []
  {
    if s != [] {
      FilterNone(s[..|s| - 1], p);
    }
  }

  /** `b` is an order-preserving subsequence of `a` (it can be read off `a` left to right). */
  predicate IsSubsequence<T(==)>(b: seq<T>, a: seq<T>)
  {
    if b == [] then true
    else if a == [] then false
    else if b[|b| - 1] == a[|a| - 1] then IsSubsequence(b[..|b| - 1], a[..|a| - 1])
    else IsSubsequence(b, a[..|a| - 1])
  }

  lemma {:induction false} FilterIsSubsequence<T>(s: seq<T>, p: T -> bool)
    ensures IsSubsequence(Filter(s, p), s)
  {
    if s != [] {
      var s' := s[..|s| - 1];
      FilterIsSubsequence(s', p);
      if p(s[|s| - 1]) {
        var f := Filter(s, p);
        assert f[..|f| - 1] == Filter(s', p);
      } else {
        assert Filter(s, p) == Filter(s', p);
        SubsequenceOfPrefix(Filter(s', p), s', s[|s| - 1]);
      }
    }
  }

  lemma {:induction false} SubsequenceOfPrefix<T>(b: seq<T>, a: seq<T>, x: T)
    requires IsSubsequence(b, a)
    ensures IsSubsequence(b, a + [x])
    decreases |a|, 1
  {
    if b != [] {
      assert (a + [x])[..|a + [x]| - 1] == a;
      if b[|b| - 1] == x {
        SubsequenceDropLast(b, a);
      }
    }
  }

  lemma {:induction false} SubsequenceDropLast<T>(b: seq<T>, a: seq<T>)
    requires b != [] && IsSubsequence(b, a)
    ensures IsSubsequence(b[..|b| - 1], a)
    decreases |a|, 0
  {
    var b' := b[..|b| - 1];
    if a != [] {
      if b[|b| - 1] == a[|a| - 1] {
        if b' != [] {
          SubsequenceOfPrefix(b', a[..|a| - 1], a[|a| - 1]);
          assert a[..|a| - 1] + [a[|a| - 1]] == a;
        }
      } else {
        SubsequenceDropLast(b, a[..|a| - 1]);
        if b' != [] {
          SubsequenceOfPrefix(b', a[..|a| - 1], a[|a| - 1]);
          assert a[..|a| - 1] + [a[|a| - 1]] == a;
        }
      }
    }
  }

  lemma {:induction false} SubsequenceTransitive<T>(c: seq<T>, b: seq<T>, a: seq<T>)
    requires IsSubsequence(c, b) && IsSubsequence(b, a)
    ensures IsSubsequence(c, a)
    decreases |a|
  {
    if c != [] {
      assert b != [] && a != [];
      var a' := a[..|a| - 1];
      if b[|b| - 1] == a[|a| - 1] {
        if c[|c| - 1] == b[|b| - 1] {
          SubsequenceTransitive(c[..|c| - 1], b[..|b| - 1], a');
        } else {
          SubsequenceTransitive(c, b[..|b| - 1], a');
        }
      } else {
        SubsequenceTransitive(c, b, a');
        SubsequenceOfPrefix(c, a', a[|a| - 1]);
        assert a' + [a[|a| - 1]] == a;
      }
    }
  }

  /** No element occurs twice. */
  predicate NoDuplicates<T(==)>(s: seq<T>)
  {
    forall i, j :: 0 <= i < j < |s| ==> s[i] != s[j]
  }

  /** `[...new Set(s)]`: the first occurrence of every element, in order of first occurrence. */
  function Distinct<T(==)>(s: seq<T>): (r: seq<T>)
    ensures NoDuplicates(r)
    ensures forall x :: x in r ==> x in s
    ensures forall x :: x in s ==> x in r
    ensures |r| <= |s|
  {
    if s == [] then []
    else
      var d := Distinct(s[..|s| - 1]);
      if s[|s| - 1] in s[..|s| - 1] then d else d + [s[|s| - 1]]
  }

  /** Index of the first occurrence of `x` in `s`. */
  function FirstIndex<T(==)>(s: seq<T>, x: T): (i: nat)
    requires x in s
    ensures i < |s| && s[i] == x
    ensures forall j :: 0 <= j < i ==> s[j] != x
  {
    if s[0] == x then 0 else 1 + FirstIndex(s[1..], x)
  }

  lemma {:induction false} FirstIndexOfPrefix<T>(s: seq<T>, x: T, n: nat)
    requires n <= |s| && x in s[..n]
    ensures x in s && FirstIndex(s[..n], x) == FirstIndex(s, x)
  {
    var i := FirstIndex(s[..n], x);
    assert s[i] == x;
  }

  /** The elements of `Distinct(s)` appear in the order of their first occurrences in `s`. */
  lemma {:induction false} DistinctFirstOccurrenceOrder<T>(s: seq<T>, i: nat, j: nat)
    requires i < j < |Distinct(s)|
    ensures FirstIndex(s, Distinct(s)[i]) < FirstIndex(s, Distinct(s)[j])
  {
    var s', last := s[..|s| - 1], s[|s| - 1];
    var d := Distinct(s');
    assert Distinct(s) == if last in s' then d else d + [last];
    var x, y := Distinct(s)[i], Distinct(s)[j];
    if j < |d| {
      assert FirstIndex(s, x) < FirstIndex(s, y) by {
        assert x == d[i] && y == d[j];
        assert x in s' && y in s';
        DistinctFirstOccurrenceOrder(s', i, j);
        FirstIndexOfPrefix(s, x, |s| - 1);
        FirstIndexOfPrefix(s, y, |s| - 1);
      }
    } else {
      assert FirstIndex(s, x) < FirstIndex(s, y) by {
        assert x == d[i] && y == last && last !in s';
        assert x in s';
        FirstIndexOfPrefix(s, x, |s| - 1);
        assert FirstIndex(s, y) == |s| - 1;
      }
    }
  }

  /** Number of occurrences of `x` in `s`. */
  function Occ<T(==)>(s: seq<T>, x: T): (n: nat)
    ensures n <= |s|
    ensures n > 0 <==> x in s
  {
    if s == [] then 0
    else Occ(s[..|s| - 1], x) + (if s[|s| - 1] == x then 1 else 0)
  }

  /** Σ over the key list `ks` of the number of occurrences of each key in `xs`. */
  function SumOcc<T(==)>(ks: seq<T>, xs: seq<T>): nat
  {
    if ks == [] then 0 else Occ(xs, ks[0]) + SumOcc(ks[1..], xs)
  }

  lemma {:induction false} SumOccAppend<T>(ks: seq<T>, xs: seq<T>, x: T)
    requires NoDuplicates(ks)
    ensures SumOcc(ks, xs + [x]) == SumOcc(ks, xs) + (if x in ks then 1 else 0)
  {
    if ks != [] {
      assert (xs + [x])[..|xs + [x]| - 1] == xs;
      assert NoDuplicates(ks[1..]) by {
        forall i, j | 0 <= i < j < |ks[1..]| ensures ks[1..][i] != ks[1..][j] {
          assert ks[1..][i] == ks[i + 1] && ks[1..][j] == ks[j + 1];
        }
      }
      SumOccAppend(ks[1..], xs, x);
      if x == ks[0] {
        assert x !in ks[1..];
      }
    }
  }

  /** Counting every element of `xs` once per key of a duplicate-free key list that covers them
      gives exactly `|xs|`: the counts partition the input. */
  lemma {:induction false} SumOccPartition<T>(ks: seq<T>, xs: seq<T>)
    requires NoDuplicates(ks)
    requires forall x :: x in xs ==> x in ks
    ensures SumOcc(ks, xs) == |xs|
  {
    if xs == [] {
      SumOccEmpty(ks);
    } else {
      var xs' := xs[..|xs| - 1];
      assert xs' + [xs[|xs| - 1]] == xs;
      SumOccPartition(ks, xs');
      SumOccAppend(ks, xs', xs[|xs| - 1]);
    }
  }

  lemma {:induction false} SumOccEmpty<T>(ks: seq<T>)
    ensures SumOcc(ks, []) == 0
  {
    if ks != [] {
      SumOccEmpty(ks[1..]);
    }
  }

  lemma {:induction false} FilterMultiset<T>(s: seq<T>, p: T -> bool, q: T -> bool)
    requires forall x :: q(x) == !p(x)
    ensures multiset(Filter(s, p)) + multiset(Filter(s, q)) == multiset(s)
  {
    if s != [] {
      FilterMultiset(s[..|s| - 1], p, q);
      assert s == s[..|s| - 1] + [s[|s| - 1]];
    }
  }

  /** Σ f(x) over the elements of `s`. */
  function Sum<T>(s: seq<T>, f: T -> int): int
  {
    if s == [] then 0 else Sum(s[..|s| - 1], f) + f(s[|s| - 1])
  }

  /** Σ f(x) over the elements of `s`, for real-valued `f`. */
  function SumReal<T>(s: seq<T>, f: T -> real): real
  {
    if s == [] then 0.0 else SumReal(s[..|s| - 1], f) + f(s[|s| - 1])
  }

  lemma {:induction false} SumConcat<T>(a: seq<T>, b: seq<T>, f: T -> int)
    ensures Sum(a + b, f) == Sum(a, f) + Sum(b, f)
  {
    if b == [] {
      assert a + b == a;
    } else {
      assert (a + b)[..|a + b| - 1] == a + b[..|b| - 1];
      SumConcat(a, b[..|b| - 1], f);
    }
  }

  /** A sum does not depend on the order of its terms. */
  lemma {:induction false} SumPermutation<T>(a: seq<T>, b: seq<T>, f: T -> int)
    requires multiset(a) == multiset(b)
    ensures Sum(a, f) == Sum(b, f)
    decreases |a|
  {
    if a == [] {
      assert |b| == |multiset(b)| == 0;
    } else {
      var a', x := a[..|a| - 1], a[|a| - 1];
      assert multiset(a') == multiset(a) - multiset{x} by {
        assert a == a' + [x];
      }
      assert x in multiset(b) by {
        assert x in multiset(a);
      }
      var i :| 0 <= i < |b| && b[i] == x;
      var b' := b[..i] + b[i + 1..];
      assert multiset(b') == multiset(b) - multiset{x} by {
        RemoveMultiset(b, i);
      }
      SumPermutation(a', b', f);
      SumRemove(b, i, f);
    }
  }

  lemma {:induction false} RemoveMultiset<T>(b: seq<T>, i: nat)
    requires i < |b|
    ensures multiset(b) == multiset(b[..i] + b[i + 1..]) + multiset{b[i]}
  {
    assert b == b[..i] + [b[i]] + b[i + 1..];
  }

  lemma {:induction false} SumRemove<T>(b: seq<T>, i: nat, f: T -> int)
    requires i < |b|
    ensures Sum(b, f) == Sum(b[..i] + b[i + 1..], f) + f(b[i])
  {
    var x := b[i];
    assert b == b[..i] + ([x] + b[i + 1..]);
    SumConcat(b[..i], [x] + b[i + 1..], f);
    SumConcat([x], b[i + 1..], f);
    SumConcat(b[..i], b[i + 1..], f);
    assert Sum([x], f) == f(x) by {
      assert [x][..0] == [];
    }
  }

  /** The function `k => Occ(s, k)`, named so that every sum over it is over the same term. */
  function OccOf<T(==)>(s: seq<T>): T -> int
  {
    k => Occ(s, k)
  }

  lemma {:induction false} SumOccAsSum<T>(ks: seq<T>, xs: seq<T>)
    ensures SumOcc(ks, xs) == Sum(ks, OccOf(xs))
  {
    if ks != [] {
      SumOccAsSum(ks[1..], xs);
      assert ks == [ks[0]] + ks[1..];
      SumConcat([ks[0]], ks[1..], OccOf(xs));
      assert [ks[0]][..0] == [];
    }
  }

  /** The multiplicity map of `s`, as a JavaScript loop `m[x] = (m[x] || 0) + 1` builds it. */
  function Counts<T(==)>(s: seq<T>): map<T, nat>
  {
    if s == [] then map[]
    else
      var m, x := Counts(s[..|s| - 1]), s[|s| - 1];
      m[x := (if x in m then m[x] else 0) + 1]
  }

  lemma {:induction false} CountsAppend<T>(s: seq<T>, x: T)
    ensures Counts(s + [x]) == Counts(s)[x := (if x in Counts(s) then Counts(s)[x] else 0) + 1]
  {
    assert (s + [x])[..|s + [x]| - 1] == s;
  }

  /** The map has an entry exactly for the elements of `s`, holding its number of
      occurrences, which is never 0. */
  lemma {:induction false} CountsMeaning<T>(s: seq<T>, x: T)
    ensures x in Counts(s) <==> x in s
    ensures x in Counts(s) ==> Counts(s)[x] == Occ(s, x) && Counts(s)[x] > 0
  {
    if s != [] {
      var s', y := s[..|s| - 1], s[|s| - 1];
      assert s == s' + [y];
      CountsMeaning(s', x);
      CountsAppend(s', y);
      OccAppend(s', y, x);
    }
  }

  /** The step of the loop as written: a stored count is never 0, so `(m[x] || 0)` reads it
      back unchanged. */
  lemma {:induction false} CountsStep<T>(s: seq<T>, x: T)
    ensures var c := Counts(s); Counts(s + [x]) == c[x := (if x in c && c[x] != 0 then c[x] else 0) + 1]
  {
    CountsAppend(s, x);
    CountsMeaning(s, x);
  }

  lemma {:induction false} OccAppend<T>(s: seq<T>, x: T, y: T)
    ensures Occ(s + [x], y) == Occ(s, y) + (if x == y then 1 else 0)
  {
    assert (s + [x])[..|s|] == s;
  }

  /** `filter` keeps every occurrence of an element that passes and none of one that fails. */
  lemma {:induction false} FilterOcc<T>(s: seq<T>, p: T -> bool, x: T)
    ensures Occ(Filter(s, p), x) == if p(x) then Occ(s, x) else 0
  {
    if s != [] {
      var s', y := s[..|s| - 1], s[|s| - 1];
      assert s == s' + [y];
      FilterOcc(s', p, x);
      FilterSnoc(s', y, p);
      OccAppend(s', y, x);
      if p(y) {
        OccAppend(Filter(s', p), y, x);
      } else {
        assert Filter(s', p) + [] == Filter(s', p);
      }
    }
  }

  /** The occurrences of the distinct elements of `s` add up to `|s|`. */
  lemma {:induction false} SumOccDistinct<T>(s: seq<T>)
    ensures Sum(Distinct(s), OccOf(s)) == |s|
  {
    SumOccPartition(Distinct(s), s);
    SumOccAsSum(Distinct(s), s);
  }

  lemma {:induction false} SubsequenceReflexive<T>(s: seq<T>)
    ensures IsSubsequence(s, s)
  {
    if s != [] {
      SubsequenceReflexive(s[..|s| - 1]);
    }
  }

  /** Adding one element to the end adds it to the distinct elements unless it was there. */
  lemma {:induction false} DistinctAppend<T>(s: seq<T>, x: T)
    ensures Distinct(s + [x]) == if x in s then Distinct(s) else Distinct(s) + [x]
    ensures x in Distinct(s) <==> x in s
  {
    assert (s + [x])[..|s|] == s;
  }

  lemma {:induction false} FilterSnoc<T>(s: seq<T>, x: T, p: T -> bool)
    ensures Filter(s + [x], p) == Filter(s, p) + (if p(x) then [x] else [])
  {
    assert (s + [x])[..|s|] == s;
  }

  lemma {:induction false} SumSnoc<T>(s: seq<T>, x: T, f: T -> int)
    ensures Sum(s + [x], f) == Sum(s, f) + f(x)
  {
    assert (s + [x])[..|s|] == s;
  }

  lemma {:induction false} SumRealSnoc<T>(s: seq<T>, x: T, f: T -> real)
    ensures SumReal(s + [x], f) == SumReal(s, f) + f(x)
  {
    assert (s + [x])[..|s|] == s;
  }

  lemma {:induction false} SumFilterSnoc<T>(s: seq<T>, x: T, p: T -> bool, f: T -> int)
    ensures Sum(Filter(s + [x], p), f) == Sum(Filter(s, p), f) + (if p(x) then f(x) else 0)
  {
    FilterSnoc(s, x, p);
    if p(x) {
      SumSnoc(Filter(s, p), x, f);
    } else {
      assert Filter(s, p) + [] == Filter(s, p);
    }
  }

  lemma {:induction false} SumRealFilterSnoc<T>(s: seq<T>, x: T, p: T -> bool, f: T -> real)
    ensures SumReal(Filter(s + [x], p), f) == SumReal(Filter(s, p), f) + (if p(x) then f(x) else 0.0)
  {
    FilterSnoc(s, x, p);
    if p(x) {
      SumRealSnoc(Filter(s, p), x, f);
    } else {
      assert Filter(s, p) + [] == Filter(s, p);
    }
  }

  /** `s` with `f` applied to every element. */
  function MapSeq<T, U>(s: seq<T>, f: T -> U): (r: seq<U>)
    ensures |r| == |s|
  {
    if s == [] then [] else MapSeq(s[..|s| - 1], f) + [f(s[|s| - 1])]
  }

  /** Element `i` of the mapped sequence is `f` of element `i`. */
  lemma {:induction false} MapSeqIndex<T, U>(s: seq<T>, f: T -> U)
    ensures forall i :: 0 <= i < |s| ==> MapSeq(s, f)[i] == f(s[i])
  {
    if s != [] {
      MapSeqIndex(s[..|s| - 1], f);
    }
  }

  lemma {:induction false} MapSeqSnoc<T, U>(s: seq<T>, x: T, f: T -> U)
    ensures MapSeq(s + [x], f) == MapSeq(s, f) + [f(x)]
  {
    assert (s + [x])[..|s|] == s;
  }

  /** The test `x => key(x) == k`, named so that every filter by it is over the same term. */
  function HasKey<T, K(==, !new)>(key: T -> K, k: K): T -> bool
  {
    x => key(x) == k
  }

  /** The map built by a JavaScript loop `m[key(x)] = (m[key(x)] || 0) + val(x)` over `s`
      (a stored sum is never `undefined`, and a stored 0 reads back as 0 either way). */
  function GroupSums<T, K(==, !new)>(s: seq<T>, key: T -> K, val: T -> real): map<K, real>
  {
    if s == [] then map[]
    else
      var m, k := GroupSums(s[..|s| - 1], key, val), key(s[|s| - 1]);
      m[k := (if k in m then m[k] else 0.0) + val(s[|s| - 1])]
  }

  lemma {:induction false} GroupSumSnoc<T, K(!new)>(s: seq<T>, x: T, key: T -> K, val: T -> real, k: K)
    ensures SumReal(Filter(s + [x], HasKey(key, k)), val)
      == SumReal(Filter(s, HasKey(key, k)), val) + (if key(x) == k then val(x) else 0.0)
  {
    var p := HasKey(key, k);
    var f := Filter(s, p);
    FilterSnoc(s, x, p);
    if key(x) == k {
      assert Filter(s + [x], p) == f + [x];
      SumRealSnoc(f, x, val);
    } else {
      assert Filter(s + [x], p) == f;
    }
  }

  lemma {:induction false} GroupSumAbsent<T, K(!new)>(s: seq<T>, key: T -> K, val: T -> real, k: K)
    requires k !in MapSeq(s, key)
    ensures SumReal(Filter(s, HasKey(key, k)), val) == 0.0
  {
    MapSeqIndex(s, key);
    forall y | y in s ensures !HasKey(key, k)(y) {
      var i :| 0 <= i < |s| && s[i] == y;
      assert MapSeq(s, key)[i] == key(y);
    }
    FilterNone(s, HasKey(key, k));
  }

  /** What the loop builds: one entry per key that occurs, holding the sum of `val` over the
      elements with that key. */
  lemma {:induction false} GroupSumsMeaning<T, K(!new)>(s: seq<T>, key: T -> K, val: T -> real, k: K)
    ensures k in GroupSums(s, key, val) <==> k in MapSeq(s, key)
    ensures k in GroupSums(s, key, val) ==> GroupSums(s, key, val)[k] == SumReal(Filter(s, HasKey(key, k)), val)
  {
    if s != [] {
      var s', x := s[..|s| - 1], s[|s| - 1];
      assert s == s' + [x];
      GroupSumsMeaning(s', key, val, k);
      MapSeqSnoc(s', x, key);
      GroupSumSnoc(s', x, key, val, k);
      var m', kx := GroupSums(s', key, val), key(x);
      assert GroupSums(s, key, val) == m'[kx := (if kx in m' then m'[kx] else 0.0) + val(x)];
      assert MapSeq(s, key) == MapSeq(s', key) + [kx];
      if k !in MapSeq(s', key) {
        GroupSumAbsent(s', key, val, k);
      }
    }
  }

  /** The number of occurrences of `k` among the keys is the number of elements with key `k`. */
  lemma {:induction false} OccMapSeq<T, K(!new)>(s: seq<T>, key: T -> K, k: K)
    ensures Occ(MapSeq(s, key), k) == |Filter(s, HasKey(key, k))|
  {
    if s != [] {
      var s', x := s[..|s| - 1], s[|s| - 1];
      assert s == s' + [x];
      OccMapSeq(s', key, k);
      MapSeqSnoc(s', x, key);
      FilterSnoc(s', x, HasKey(key, k));
      OccAppend(MapSeq(s', key), key(x), k);
    }
  }

  /** Two maps with the same keys and the same value at every key are equal. */
  lemma {:induction false} MapExtensionality<K, V>(a: map<K, V>, b: map<K, V>)
    requires forall k :: k in a <==> k in b
    requires forall k :: k in a ==> a[k] == b[k]
    ensures a == b
  {
  }
}
