/** Python's `sorted(xs, key=key)`: the stable sort by a key, over any total order of keys. */
module StableSort {
  import opened Collections

  ghost predicate TotalOrder<K(!new)>(le: (K, K) -> bool) {
    && (forall a, b :: le(a, b) || le(b, a))
    && (forall a, b :: le(a, b) && le(b, a) ==> a == b)
    && (forall a, b, c :: le(a, b) && le(b, c) ==> le(a, c))
  }

  // Before the first element whose key is not smaller, so that equal keys keep their order.
  function Insert<T, K>(x: T, xs: seq<T>, key: T -> K, le: (K, K) -> bool): seq<T> {
    if xs == [] then [x]
    else if le(key(x), key(xs[0])) then [x] + xs
    else [xs[0]] + Insert(x, xs[1..], key, le)
  }

  function Sort<T, K>(xs: seq<T>, key: T -> K, le: (K, K) -> bool): seq<T> {
    if xs == [] then [] else Insert(xs[0], Sort(xs[1..], key, le), key, le)
  }

  ghost predicate Sorted<T, K>(xs: seq<T>, key: T -> K, le: (K, K) -> bool) {
    forall i, j | 0 <= i < j < |xs| :: le(key(xs[i]), key(xs[j]))
  }

  // The elements with key k, in order.
  function WithKey<T, K(==)>(xs: seq<T>, key: T -> K, k: K): seq<T> {
    if xs == [] then []
    else (if key(xs[0]) == k then [xs[0]] else []) + WithKey(xs[1..], key, k)
  }

  // Key by key, xs and ys list the same elements in the same order.
  ghost predicate Agree<T, K(!new)>(xs: seq<T>, ys: seq<T>, key: T -> K) {
    forall k :: WithKey(xs, key, k) == WithKey(ys, key, k)
  }

  predicate DistinctKeys<T, K(==)>(xs: seq<T>, key: T -> K) {
    forall i, j | 0 <= i < j < |xs| :: key(xs[i]) != key(xs[j])
  }

  lemma WithKeyCons<T, K>(x: T, xs: seq<T>, key: T -> K, k: K)
    ensures WithKey([x] + xs, key, k) == (if key(x) == k then [x] else []) + WithKey(xs, key, k)
  {
    assert ([x] + xs)[1..] == xs;
  }

  lemma {:induction false} InsertPermutes<T, K>(x: T, xs: seq<T>, key: T -> K, le: (K, K) -> bool)
    ensures multiset(Insert(x, xs, key, le)) == multiset(xs) + multiset{x}
  {
    if xs == [] {
    } else if le(key(x), key(xs[0])) {
      assert multiset([x] + xs) == multiset{x} + multiset(xs);
    } else {
      InsertPermutes(x, xs[1..], key, le);
      assert xs == [xs[0]] + xs[1..];
    }
  }

  lemma {:induction false} InsertKeeps<T, K(!new)>(x: T, xs: seq<T>, key: T -> K, le: (K, K) -> bool)
    requires TotalOrder(le) && Sorted(xs, key, le)
    ensures Sorted(Insert(x, xs, key, le), key, le)
    ensures multiset(Insert(x, xs, key, le)) == multiset(xs) + multiset{x}
  {
    InsertPermutes(x, xs, key, le);
    if xs != [] && !le(key(x), key(xs[0])) {
      InsertKeeps(x, xs[1..], key, le);
      var rest := Insert(x, xs[1..], key, le);
      forall j | 0 <= j < |rest|
        ensures le(key(xs[0]), key(rest[j]))
      {
        assert rest[j] in multiset(rest);
        assert rest[j] == x || rest[j] in xs[1..];
      }
    }
  }

  /** The result is a sorted permutation of the input. */
  lemma {:induction false} SortSorts<T, K(!new)>(xs: seq<T>, key: T -> K, le: (K, K) -> bool)
    requires TotalOrder(le)
    ensures Sorted(Sort(xs, key, le), key, le)
    ensures multiset(Sort(xs, key, le)) == multiset(xs)
  {
    if xs != [] {
      SortSorts(xs[1..], key, le);
      InsertKeeps(xs[0], Sort(xs[1..], key, le), key, le);
      assert xs == [xs[0]] + xs[1..];
    }
  }

  lemma {:induction false} InsertIsStable<T, K>(x: T, xs: seq<T>, key: T -> K, le: (K, K) -> bool, k: K)
    requires le(key(x), key(x))
    ensures WithKey(Insert(x, xs, key, le), key, k) == (if key(x) == k then [x] else []) + WithKey(xs, key, k)
  {
    if xs == [] || le(key(x), key(xs[0])) {
      WithKeyCons(x, xs, key, k);
      assert xs == [] ==> [x] + xs == [x];
    } else {
      var head, rest := xs[0], xs[1..];
      assert xs == [head] + rest && Insert(x, xs, key, le) == [head] + Insert(x, rest, key, le);
      InsertIsStable(x, rest, key, le, k);
      WithKeyCons(head, Insert(x, rest, key, le), key, k);
      WithKeyCons(head, rest, key, k);
      assert !(key(x) == k && key(head) == k);
    }
  }

  /** Elements with equal keys keep their order. */
  lemma {:induction false} SortIsStable<T, K(!new)>(xs: seq<T>, key: T -> K, le: (K, K) -> bool, k: K)
    requires TotalOrder(le)
    ensures WithKey(Sort(xs, key, le), key, k) == WithKey(xs, key, k)
  {
    if xs != [] {
      SortIsStable(xs[1..], key, le, k);
      InsertIsStable(xs[0], Sort(xs[1..], key, le), key, le, k);
    }
  }

  lemma {:induction false} WithKeyMembers<T, K>(xs: seq<T>, key: T -> K, k: K)
    ensures forall x :: x in WithKey(xs, key, k) <==> x in xs && key(x) == k
  {
    if xs != [] {
      WithKeyMembers(xs[1..], key, k);
      assert forall x :: x in xs <==> x == xs[0] || x in xs[1..];
    }
  }

  lemma HeadHasKey<T, K>(xs: seq<T>, key: T -> K)
    ensures xs != [] ==> WithKey(xs, key, key(xs[0])) != []
  {
  }

  // Sorted sequences that agree key by key are equal.
  lemma {:induction false} SortedAgree<T, K(!new)>(xs: seq<T>, ys: seq<T>, key: T -> K, le: (K, K) -> bool)
    requires TotalOrder(le) && Sorted(xs, key, le) && Sorted(ys, key, le)
    requires Agree(xs, ys, key)
    ensures xs == ys
    decreases |xs|
  {
    if xs == [] {
      HeadHasKey(ys, key);
    } else {
      SameHeadKey(xs, ys, key, le);
      var h := key(xs[0]);
      assert WithKey(xs, key, h)[0] == xs[0] && WithKey(ys, key, h)[0] == ys[0];
      forall k
        ensures WithKey(xs[1..], key, k) == WithKey(ys[1..], key, k)
      {
        if k == h {
          assert WithKey(xs[1..], key, k) == WithKey(xs, key, k)[1..];
          assert WithKey(ys[1..], key, k) == WithKey(ys, key, k)[1..];
        } else {
          assert WithKey(xs[1..], key, k) == WithKey(xs, key, k);
          assert WithKey(ys[1..], key, k) == WithKey(ys, key, k);
        }
      }
      SortedAgree(xs[1..], ys[1..], key, le);
      assert xs == [xs[0]] + xs[1..] && ys == [ys[0]] + ys[1..];
    }
  }

  lemma SameHeadKey<T, K(!new)>(xs: seq<T>, ys: seq<T>, key: T -> K, le: (K, K) -> bool)
    requires TotalOrder(le) && Sorted(xs, key, le) && Sorted(ys, key, le) && xs != []
    requires Agree(xs, ys, key)
    ensures ys != [] && key(ys[0]) == key(xs[0])
  {
    var h := key(xs[0]);
    WithKeyMembers(xs, key, h);
    WithKeyMembers(ys, key, h);
    assert xs[0] in WithKey(ys, key, h);
    var g := key(ys[0]);
    WithKeyMembers(xs, key, g);
    WithKeyMembers(ys, key, g);
    assert ys[0] in WithKey(xs, key, g);
    var i :| 0 <= i < |ys| && ys[i] == xs[0];
    var j :| 0 <= j < |xs| && xs[j] == ys[0];
    assert le(g, h) && le(h, g);
  }

  /** Two inputs sort to the same sequence exactly when, key by key, they list the same elements in
      the same order. */
  lemma SortEqualExactly<T, K(!new)>(xs: seq<T>, ys: seq<T>, key: T -> K, le: (K, K) -> bool)
    requires TotalOrder(le)
    ensures Sort(xs, key, le) == Sort(ys, key, le) <==> Agree(xs, ys, key)
  {
    SortSorts(xs, key, le);
    SortSorts(ys, key, le);
    forall k
      ensures WithKey(Sort(xs, key, le), key, k) == WithKey(xs, key, k)
      ensures WithKey(Sort(ys, key, le), key, k) == WithKey(ys, key, k)
    {
      SortIsStable(xs, key, le, k);
      SortIsStable(ys, key, le, k);
    }
    if Sort(xs, key, le) == Sort(ys, key, le) {
      forall k
        ensures WithKey(xs, key, k) == WithKey(ys, key, k)
      {
        SortIsStable(xs, key, le, k);
        SortIsStable(ys, key, le, k);
      }
    }
    if Agree(xs, ys, key) {
      assert Agree(Sort(xs, key, le), Sort(ys, key, le), key);
      SortedAgree(Sort(xs, key, le), Sort(ys, key, le), key, le);
    }
  }

  lemma {:induction false} NoneWithKey<T, K>(xs: seq<T>, key: T -> K, k: K)
    requires forall i | 0 <= i < |xs| :: key(xs[i]) != k
    ensures WithKey(xs, key, k) == []
  {
    if xs != [] { NoneWithKey(xs[1..], key, k); }
  }

  lemma {:induction false} DistinctWithKey<T, K>(xs: seq<T>, key: T -> K, k: K)
    requires DistinctKeys(xs, key)
    ensures |WithKey(xs, key, k)| <= 1
  {
    if xs != [] {
      DistinctWithKey(xs[1..], key, k);
      if key(xs[0]) == k { NoneWithKey(xs[1..], key, k); }
    }
  }

  lemma {:induction false} WithKeyCounts<T, K>(xs: seq<T>, key: T -> K, k: K, x: T)
    ensures multiset(WithKey(xs, key, k))[x] == if key(x) == k then multiset(xs)[x] else 0
  {
    if xs != [] {
      WithKeyCounts(xs[1..], key, k, x);
      assert xs == [xs[0]] + xs[1..];
    }
  }

  lemma ShortSequences<T(!new)>(a: seq<T>, b: seq<T>)
    requires |a| <= 1 && |b| <= 1 && forall x :: multiset(a)[x] == multiset(b)[x]
    ensures a == b
  {
    assert a != [] ==> multiset(a)[a[0]] == 1;
    assert b != [] ==> multiset(b)[b[0]] == 1;
  }

  lemma DistinctKeysPermute<T(!new), K>(xs: seq<T>, ys: seq<T>, key: T -> K)
    requires multiset(xs) == multiset(ys) && DistinctKeys(xs, key)
    ensures DistinctKeys(ys, key)
  {
    DistinctByMultiset(xs, ys);
    forall i, j | 0 <= i < j < |ys|
      ensures key(ys[i]) != key(ys[j])
    {
      assert ys[i] in multiset(xs) && ys[j] in multiset(xs);
      var a :| 0 <= a < |xs| && xs[a] == ys[i];
      var b :| 0 <= b < |xs| && xs[b] == ys[j];
      assert a != b;
    }
  }

  /** With distinct keys the order of the input does not matter. */
  lemma SortOfPermutation<T(!new), K(!new)>(xs: seq<T>, ys: seq<T>, key: T -> K, le: (K, K) -> bool)
    requires TotalOrder(le) && multiset(xs) == multiset(ys) && DistinctKeys(xs, key)
    ensures Sort(xs, key, le) == Sort(ys, key, le)
  {
    DistinctKeysPermute(xs, ys, key);
    forall k
      ensures WithKey(xs, key, k) == WithKey(ys, key, k)
    {
      DistinctWithKey(xs, key, k);
      DistinctWithKey(ys, key, k);
      forall x: T
        ensures multiset(WithKey(xs, key, k))[x] == multiset(WithKey(ys, key, k))[x]
      {
        WithKeyCounts(xs, key, k, x);
        WithKeyCounts(ys, key, k, x);
      }
      ShortSequences(WithKey(xs, key, k), WithKey(ys, key, k));
    }
    SortEqualExactly(xs, ys, key, le);
  }

  // ----- Orders of Python keys -----

  // Strings compare by code point.
  predicate StringLe(a: string, b: string) {
    a == "" || (b != "" && (a[0] < b[0] || (a[0] == b[0] && StringLe(a[1..], b[1..]))))
  }

  predicate PairLe(a: (string, string), b: (string, string)) {
    if a.0 == b.0 then StringLe(a.1, b.1) else StringLe(a.0, b.0)
  }

  lemma {:induction false} StringLeTotal(a: string, b: string)
    ensures StringLe(a, b) || StringLe(b, a)
  {
    if a != "" && b != "" { StringLeTotal(a[1..], b[1..]); }
  }

  lemma {:induction false} StringLeAntisymmetric(a: string, b: string)
    requires StringLe(a, b) && StringLe(b, a)
    ensures a == b
  {
    if a != "" && b != "" {
      StringLeAntisymmetric(a[1..], b[1..]);
      assert a == [a[0]] + a[1..] && b == [b[0]] + b[1..];
    }
  }

  lemma {:induction false} StringLeTransitive(a: string, b: string, c: string)
    requires StringLe(a, b) && StringLe(b, c)
    ensures StringLe(a, c)
  {
    if a != "" && a[0] == b[0] == c[0] { StringLeTransitive(a[1..], b[1..], c[1..]); }
  }

  lemma StringsAreOrdered()
    ensures TotalOrder(StringLe)
  {
    forall a, b
      ensures StringLe(a, b) || StringLe(b, a)
      ensures StringLe(a, b) && StringLe(b, a) ==> a == b
    {
      StringLeTotal(a, b);
      if StringLe(a, b) && StringLe(b, a) { StringLeAntisymmetric(a, b); }
    }
    forall a, b, c | StringLe(a, b) && StringLe(b, c)
      ensures StringLe(a, c)
    {
      StringLeTransitive(a, b, c);
    }
  }

  lemma PairsAreOrdered()
    ensures TotalOrder(PairLe)
  {
    StringsAreOrdered();
    assert forall a: string, b :: StringLe(a, b) || StringLe(b, a);
  }

  // `sorted(list_of_strings)`
  function SortStrings(xs: seq<string>): seq<string> {
    Sort(xs, (s: string) => s, StringLe)
  }

  lemma SortStringsKeeps(xs: seq<string>)
    ensures forall x :: x in SortStrings(xs) <==> x in xs
    ensures |SortStrings(xs)| == |xs|
    ensures multiset(SortStrings(xs)) == multiset(xs)
  {
    StringsAreOrdered();
    SortSorts(xs, (s: string) => s, StringLe);
    assert forall x :: x in xs <==> x in multiset(xs);
    assert forall x :: x in SortStrings(xs) <==> x in multiset(SortStrings(xs));
    assert |multiset(xs)| == |xs| && |multiset(SortStrings(xs))| == |SortStrings(xs)|;
  }

  // a comes before b in a dictionary: it is the beginning of b, or smaller at the first difference.
  ghost predicate Precedes(a: string, b: string) {
    a <= b || exists i: nat :: SmallerAt(a, b, i)
  }

  predicate SmallerAt(a: string, b: string, i: nat) {
    i < |a| && i < |b| && a[..i] == b[..i] && a[i] < b[i]
  }

  lemma PrecedesTail(a: string, b: string)
    requires a != "" && b != "" && a[0] == b[0]
    ensures Precedes(a, b) <==> Precedes(a[1..], b[1..])
  {
    assert a == [a[0]] + a[1..] && b == [b[0]] + b[1..];
    forall i: nat
      ensures SmallerAt(a[1..], b[1..], i) <==> SmallerAt(a, b, i + 1)
    {
      if i < |a[1..]| && i < |b[1..]| {
        assert a[..i + 1] == [a[0]] + a[1..][..i] && b[..i + 1] == [b[0]] + b[1..][..i];
        assert a[1..][..i] == a[..i + 1][1..] && b[1..][..i] == b[..i + 1][1..];
      }
    }
    if i: nat :| SmallerAt(a, b, i) {
      assert i > 0 && SmallerAt(a[1..], b[1..], i - 1);
    }
    if i: nat :| SmallerAt(a[1..], b[1..], i) {
      assert SmallerAt(a, b, i + 1);
    }
  }

  lemma {:induction false} StringLeIsLexicographic(a: string, b: string)
    ensures StringLe(a, b) <==> Precedes(a, b)
    decreases |a|
  {
    if a != "" && b != "" {
      if a[0] == b[0] {
        StringLeIsLexicographic(a[1..], b[1..]);
        PrecedesTail(a, b);
      } else {
        assert SmallerAt(a, b, 0) <==> a[0] < b[0];
        assert forall i: nat | SmallerAt(a, b, i) && i > 0 :: a[..i][0] == b[..i][0];
      }
    }
  }

  ghost predicate Ascending(xs: seq<string>) {
    forall i, j | 0 <= i < j < |xs| :: Precedes(xs[i], xs[j])
  }

  /** `sorted` puts strings in dictionary order. */
  lemma SortStringsAscend(xs: seq<string>)
    ensures Ascending(SortStrings(xs))
  {
    StringsAreOrdered();
    SortSorts(xs, (s: string) => s, StringLe);
    var r := SortStrings(xs);
    forall i, j | 0 <= i < j < |r|
      ensures Precedes(r[i], r[j])
    {
      StringLeIsLexicographic(r[i], r[j]);
    }
  }
}
