/** JavaScript's `Array.prototype.sort` with a comparator `(a, b) => key(a) - key(b)`, which
    ECMAScript 2019 and later require to be stable, modelled as a stable insertion sort on a
    real-valued key. A comparator `(a, b) => b.count - a.count` is the key `-count`. */
module StableSort {

  /** Non-decreasing by `key`. */
  predicate SortedBy<T>(s: seq<T>, key: T -> real)
  {
    forall i, j :: 0 <= i < j < |s| ==> key(s[i]) <= key(s[j])
  }

  /** The elements whose key is `k`, in their order in `s`. A sort is stable exactly when it
      leaves every such block as it was. */
  function Block<T>(s: seq<T>, key: T -> real, k: real): seq<T>
  {
    if s == [] then []
    else Block(s[..|s| - 1], key, k) + (if key(s[|s| - 1]) == k then [s[|s| - 1]] else [])
  }

  /** A block holds exactly the elements with its key. */
  lemma {:induction false} BlockMembers<T>(s: seq<T>, key: T -> real, k: real)
    ensures forall y :: y in Block(s, key, k) ==> y in s && key(y) == k
    ensures forall y :: y in s && key(y) == k ==> y in Block(s, key, k)
  {
    if s != [] {
      var s' := s[..|s| - 1];
      BlockMembers(s', key, k);
      assert s == s' + [s[|s| - 1]];
    }
  }

  /** Inserts `x` after every element whose key is at most `key(x)`. */
  function Insert<T>(s: seq<T>, x: T, key: T -> real): (r: seq<T>)
    ensures |r| == |s| + 1
    ensures multiset(r) == multiset(s) + multiset{x}
    ensures SortedBy(s, key) ==> SortedBy(r, key)
  {
    if s == [] || key(s[|s| - 1]) <= key(x) then s + [x]
    else
      var s', last := s[..|s| - 1], s[|s| - 1];
      assert s == s' + [last];
      var r' := Insert(s', x, key);
      assert SortedBy(s, key) ==> SortedBy(r' + [last], key) by {
        if SortedBy(s, key) {
          InsertedBelowLast(s, x, key, r');
        }
      }
      r' + [last]
  }

  /** The step of `Insert` that puts the last element back after the recursive result. */
  lemma {:induction false} InsertedBelowLast<T>(s: seq<T>, x: T, key: T -> real, r': seq<T>)
    requires s != [] && SortedBy(s, key) && key(x) < key(s[|s| - 1])
    requires multiset(r') == multiset(s[..|s| - 1]) + multiset{x}
    requires SortedBy(s[..|s| - 1], key) ==> SortedBy(r', key)
    ensures SortedBy(r' + [s[|s| - 1]], key)
  {
    var s', last := s[..|s| - 1], s[|s| - 1];
    assert SortedBy(s', key);
    forall y | y in r' ensures key(y) <= key(last) {
      assert y in multiset(r');
      if y != x {
        assert y in multiset(s');
        var i :| 0 <= i < |s'| && s'[i] == y;
        assert s[i] == y;
      }
    }
    var r := r' + [last];
    forall i, j | 0 <= i < j < |r| ensures key(r[i]) <= key(r[j]) {
      if j == |r| - 1 {
        assert r[i] in r';
      } else {
        assert r[i] == r'[i] && r[j] == r'[j];
      }
    }
  }

  /** The sorted permutation of `s`, equal elements keeping their relative order. */
  function SortBy<T>(s: seq<T>, key: T -> real): (r: seq<T>)
    ensures |r| == |s|
    ensures multiset(r) == multiset(s)
    ensures SortedBy(r, key)
  {
    if s == [] then []
    else
      assert s == s[..|s| - 1] + [s[|s| - 1]];
      Insert(SortBy(s[..|s| - 1], key), s[|s| - 1], key)
  }

  lemma {:induction false} InsertBlock<T>(s: seq<T>, x: T, key: T -> real, k: real)
    ensures Block(Insert(s, x, key), key, k) == Block(s, key, k) + (if key(x) == k then [x] else [])
  {
    if s == [] || key(s[|s| - 1]) <= key(x) {
      var r := s + [x];
      assert r[..|r| - 1] == s;
    } else {
      var s', last := s[..|s| - 1], s[|s| - 1];
      InsertBlock(s', x, key, k);
      var r := Insert(s, x, key);
      assert r[..|r| - 1] == Insert(s', x, key);
    }
  }

  /** Stability: sorting leaves the subsequence of every key exactly as it was in the input. */
  lemma {:induction false} SortByStable<T>(s: seq<T>, key: T -> real, k: real)
    ensures Block(SortBy(s, key), key, k) == Block(s, key, k)
  {
    if s != [] {
      var s' := s[..|s| - 1];
      SortByStable(s', key, k);
      InsertBlock(SortBy(s', key), s[|s| - 1], key, k);
    }
  }

  /** In a sorted sequence the last element has the largest key. */
  lemma {:induction false} SortedLastIsMax<T>(s: seq<T>, key: T -> real, y: T)
    requires SortedBy(s, key) && y in s
    ensures key(y) <= key(s[|s| - 1])
  {
    var i :| 0 <= i < |s| && s[i] == y;
  }

  /** Two non-empty sorted sequences with equal blocks end with the same element. */
  lemma {:induction false} SortedBlocksSameLast<T>(a: seq<T>, b: seq<T>, key: T -> real)
    requires a != [] && b != []
    requires SortedBy(a, key) && SortedBy(b, key)
    requires forall k :: Block(a, key, k) == Block(b, key, k)
    ensures a[|a| - 1] == b[|b| - 1]
  {
    var x, y := a[|a| - 1], b[|b| - 1];
    BlockMembers(a, key, key(x));
    BlockMembers(b, key, key(x));
    BlockMembers(a, key, key(y));
    BlockMembers(b, key, key(y));
    assert x in Block(a, key, key(x));
    assert y in Block(b, key, key(y));
    assert x in Block(b, key, key(x));
    assert y in Block(a, key, key(y));
    SortedLastIsMax(b, key, x);
    SortedLastIsMax(a, key, y);
    var m := key(x);
    var ba, bb := Block(a, key, m), Block(b, key, m);
    assert ba == Block(a[..|a| - 1], key, m) + [x];
    assert bb == Block(b[..|b| - 1], key, m) + [y];
    assert ba[|ba| - 1] == x && bb[|bb| - 1] == y;
  }

  lemma {:induction false} BlocksOfPrefixes<T>(a: seq<T>, b: seq<T>, key: T -> real, k: real)
    requires a != [] && b != [] && a[|a| - 1] == b[|b| - 1]
    requires Block(a, key, k) == Block(b, key, k)
    ensures Block(a[..|a| - 1], key, k) == Block(b[..|b| - 1], key, k)
  {
    var x := a[|a| - 1];
    var pa, pb := Block(a[..|a| - 1], key, k), Block(b[..|b| - 1], key, k);
    assert Block(a, key, k) == pa + (if key(x) == k then [x] else []);
    assert Block(b, key, k) == pb + (if key(x) == k then [x] else []);
    if key(x) == k {
      assert pa + [x] == pb + [x];
      assert pa == (pa + [x])[..|pa|];
      assert pb == (pb + [x])[..|pb|];
    }
  }

  lemma {:induction false} BlocksOfEmpty<T>(a: seq<T>, b: seq<T>, key: T -> real)
    requires a == [] || b == []
    requires forall k :: Block(a, key, k) == Block(b, key, k)
    ensures a == b
  {
    if a != [] {
      BlockContains(a, key, 0);
      assert false;
    } else if b != [] {
      BlockContains(b, key, 0);
      assert false;
    }
  }

  lemma {:induction false} BlockContains<T>(s: seq<T>, key: T -> real, i: nat)
    requires i < |s|
    ensures s[i] in Block(s, key, key(s[i]))
  {
    BlockMembers(s, key, key(s[i]));
  }

  /** Two sequences that are sorted by the same key and agree on every key's block are equal. */
  lemma {:induction false} SortedBlocksDetermine<T>(a: seq<T>, b: seq<T>, key: T -> real)
    requires SortedBy(a, key) && SortedBy(b, key)
    requires forall k :: Block(a, key, k) == Block(b, key, k)
    ensures a == b
    decreases |a|
  {
    if a == [] || b == [] {
      BlocksOfEmpty(a, b, key);
    } else {
      SortedBlocksSameLast(a, b, key);
      var a', b' := a[..|a| - 1], b[..|b| - 1];
      forall k ensures Block(a', key, k) == Block(b', key, k) {
        BlocksOfPrefixes(a, b, key, k);
      }
      SortedBlocksDetermine(a', b', key);
      assert a == a' + [a[|a| - 1]] && b == b' + [b[|b| - 1]];
    }
  }

  /** Every stable sort of `s` by `key` returns `SortBy(s, key)`: a sequence that is sorted by
      `key` and leaves every key's block as in `s` is this one. So the model does not depend on
      which stable algorithm the JavaScript engine uses. */
  lemma {:induction false} StableSortIsUnique<T>(s: seq<T>, r: seq<T>, key: T -> real)
    requires SortedBy(r, key)
    requires forall k :: Block(r, key, k) == Block(s, key, k)
    ensures r == SortBy(s, key)
  {
    forall k ensures Block(r, key, k) == Block(SortBy(s, key), key, k) {
      SortByStable(s, key, k);
    }
    SortedBlocksDetermine(r, SortBy(s, key), key);
  }
}
