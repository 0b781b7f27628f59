/** Sequence operations the dashboard code performs with `filter`, `reduce`, `find`,
    `new Set(...)` and insertion-ordered `Map`s, with the facts the model needs about them:
    filters keep exactly the matching elements in order, keyed sums do not depend on the
    order of the elements, and summing a keyed total over every key gives the grand total. */
module Seqs {
  import opened Common

  /** `s.filter(p)`. */
  function FilterBy<T>(s: seq<T>, p: T -> bool): (r: seq<T>)
    ensures |r| <= |s|
    ensures forall x | x in r :: x in s && p(x)
    ensures forall x | x in s && p(x) :: x in r
    ensures (forall x :: x in s ==> p(x)) ==> r == s
  {
    if s == [] then []
    else
      InitLast(s);
      FilterBy(s[..|s| - 1], p) + (if p(s[|s| - 1]) then [s[|s| - 1]] else [])
  }

  /** A filter keeps every copy of a matching element and no copy of any other. */
  lemma {:induction false} FilterByCounts<T>(s: seq<T>, p: T -> bool)
    ensures forall x | x in s :: multiset(FilterBy(s, p))[x] == if p(x) then multiset(s)[x] else 0
  {
    if s != [] {
      var init, y := s[..|s| - 1], s[|s| - 1];
      InitLast(s);
      FilterByCounts(init, p);
      assert multiset(s) == multiset(init) + multiset{y};
      var f := FilterBy(init, p);
      assert multiset(FilterBy(s, p)) == multiset(f) + (if p(y) then multiset{y} else multiset{});
    }
  }

  /** `a` is `b` with some elements left out, the rest kept in their order. */
  predicate IsSubsequence<T(==)>(a: seq<T>, b: seq<T>)
    decreases |b|
  {
    if a == [] then true
    else if b == [] then false
    else if a[|a| - 1] == b[|b| - 1] then IsSubsequence(a[..|a| - 1], b[..|b| - 1])
    else IsSubsequence(a, b[..|b| - 1])
  }

  lemma {:induction false} FilterIsSubsequence<T>(s: seq<T>, p: T -> bool)
    ensures IsSubsequence(FilterBy(s, p), s)
  {
    if s != [] {
      var init, x := s[..|s| - 1], s[|s| - 1];
      FilterIsSubsequence(init, p);
      var f := FilterBy(init, p);
      if p(x) {
        assert FilterBy(s, p) == f + [x];
        assert (f + [x])[..|f|] == f;
      } else {
        assert FilterBy(s, p) == f;
        if f != [] {
          assert f[|f| - 1] in f;
        }
      }
    }
  }

  /** Filtering twice with the same predicate is filtering once. */
  lemma FilterIdempotent<T>(s: seq<T>, p: T -> bool)
    ensures FilterBy(FilterBy(s, p), p) == FilterBy(s, p)
  {
  }

  /** `s.reduce((sum, x) => sum + f(x), 0)`. */
  function Sum<T>(s: seq<T>, f: T -> real): real
  {
    if s == [] then 0.0 else Sum(s[..|s| - 1], f) + f(s[|s| - 1])
  }

  /** The sum of `f` over the elements of `s` whose key is `k`. */
  function SumWhere<T, K(==)>(s: seq<T>, key: T -> K, k: K, f: T -> real): real
  {
    if s == [] then 0.0
    else SumWhere(s[..|s| - 1], key, k, f) + (if key(s[|s| - 1]) == k then f(s[|s| - 1]) else 0.0)
  }

  /** The number of elements of `s` whose key is `k`. */
  function CountWhere<T, K(==)>(s: seq<T>, key: T -> K, k: K): (n: nat)
    ensures n <= |s|
    ensures n > 0 <==> exists x :: x in s && key(x) == k
  {
    if s == [] then 0
    else
      var n' := CountWhere(s[..|s| - 1], key, k);
      InitLast(s);
      n' + (if key(s[|s| - 1]) == k then 1 else 0)
  }

  /** `s.map(key)`. */
  function KeysOf<T, K>(s: seq<T>, key: T -> K): (r: seq<K>)
    ensures |r| == |s|
    ensures forall i :: 0 <= i < |s| ==> r[i] == key(s[i])
  {
    if s == [] then [] else KeysOf(s[..|s| - 1], key) + [key(s[|s| - 1])]
  }

  predicate NoDuplicates<K(==)>(s: seq<K>)
  {
    forall i, j :: 0 <= i < j < |s| ==> s[i] != s[j]
  }

  /** The distinct elements of `s` in order of first appearance: the key order of an
      insertion-ordered `Map` or `Set` filled from `s`. */
  function FirstSeen<K(==)>(s: seq<K>): seq<K>
  {
    if s == [] then []
    else
      var r' := FirstSeen(s[..|s| - 1]);
      if s[|s| - 1] in r' then r' else r' + [s[|s| - 1]]
  }

  /** `FirstSeen` keeps every element of `s` once. */
  lemma {:induction false} FirstSeenFacts<K>(s: seq<K>)
    ensures forall k | k in FirstSeen(s) :: k in s
    ensures forall k | k in s :: k in FirstSeen(s)
    ensures NoDuplicates(FirstSeen(s))
  {
    if s != [] {
      FirstSeenFacts(s[..|s| - 1]);
      InitLast(s);
    }
  }

  /** The index of the first occurrence of `k` in `s`. */
  function FirstIndex<K(==)>(s: seq<K>, k: K): (i: nat)
    requires k in s
    ensures i < |s| && s[i] == k
    ensures forall j :: 0 <= j < i ==> s[j] != k
  {
    if s[0] == k then 0 else 1 + FirstIndex(s[1..], k)
  }

  lemma {:induction false} FirstIndexAppend<K>(a: seq<K>, b: seq<K>, k: K)
    requires k in a
    ensures FirstIndex(a + b, k) == FirstIndex(a, k)
  {
    if a[0] != k {
      assert (a + b)[1..] == a[1..] + b;
      FirstIndexAppend(a[1..], b, k);
    }
  }

  /** `FirstSeen` lists the keys in the order in which they first occur. */
  lemma {:induction false} FirstSeenOrder<K>(s: seq<K>, i: nat, j: nat)
    requires i < j < |FirstSeen(s)|
    ensures FirstSeen(s)[i] in s && FirstSeen(s)[j] in s
    ensures FirstIndex(s, FirstSeen(s)[i]) < FirstIndex(s, FirstSeen(s)[j])
  {
    FirstSeenFacts(s);
    var init, x := s[..|s| - 1], s[|s| - 1];
    InitLast(s);
    var r' := FirstSeen(init);
    FirstSeenFacts(init);
    var a, b := FirstSeen(s)[i], FirstSeen(s)[j];
    if j < |r'| {
      FirstSeenOrder(init, i, j);
      FirstIndexAppend(init, [x], a);
      FirstIndexAppend(init, [x], b);
    } else {
      assert b == x && x !in init;
      assert a in r';
      FirstIndexAppend(init, [x], a);
      assert FirstIndex(s, b) == |init| by {
        forall m | 0 <= m < |init| ensures s[m] != x {
          assert s[m] == init[m];
        }
      }
    }
  }

  /** `s.find(x => key(x) === k)`: the first element of `s` whose key is `k`. */
  function FirstWhere<T, K(==)>(s: seq<T>, key: T -> K, k: K): (r: Option<T>)
    ensures r.Some? <==> exists x :: x in s && key(x) == k
    ensures r.Some? ==> r.value in s && key(r.value) == k
  {
    if s == [] then None
    else if key(s[0]) == k then Some(s[0])
    else
      assert s == [s[0]] + s[1..];
      FirstWhere(s[1..], key, k)
  }

  lemma {:induction false} FirstWhereAppend<T, K>(s: seq<T>, x: T, key: T -> K, k: K)
    ensures FirstWhere(s + [x], key, k) ==
              if FirstWhere(s, key, k).Some? then FirstWhere(s, key, k)
              else if key(x) == k then Some(x) else None
  {
    if s != [] {
      assert (s + [x])[1..] == s[1..] + [x];
      FirstWhereAppend(s[1..], x, key, k);
    }
  }

  lemma {:induction false} SumWhereAppend<T, K>(a: seq<T>, b: seq<T>, key: T -> K, k: K, f: T -> real)
    ensures SumWhere(a + b, key, k, f) == SumWhere(a, key, k, f) + SumWhere(b, key, k, f)
  {
    if b != [] {
      assert (a + b)[..|a + b| - 1] == a + b[..|b| - 1];
      SumWhereAppend(a, b[..|b| - 1], key, k, f);
    } else {
      assert a + b == a;
    }
  }

  lemma {:induction false} CountWhereAppend<T, K>(a: seq<T>, b: seq<T>, key: T -> K, k: K)
    ensures CountWhere(a + b, key, k) == CountWhere(a, key, k) + CountWhere(b, key, k)
  {
    if b != [] {
      assert (a + b)[..|a + b| - 1] == a + b[..|b| - 1];
      CountWhereAppend(a, b[..|b| - 1], key, k);
    } else {
      assert a + b == a;
    }
  }

  /** Taking the last element out of `a`. */
  lemma RemoveLast<T>(a: seq<T>)
    requires a != []
    ensures multiset(a[..|a| - 1]) == multiset(a) - multiset{a[|a| - 1]}
  {
    InitLast(a);
    assert multiset(a) == multiset(a[..|a| - 1]) + multiset{a[|a| - 1]};
  }

  /** Taking the element at `i` out of `b`. */
  lemma RemoveAt<T>(b: seq<T>, i: nat)
    requires i < |b|
    ensures multiset(b[..i] + b[i + 1..]) == multiset(b) - multiset{b[i]}
  {
    assert b == b[..i] + [b[i]] + b[i + 1..];
    assert multiset(b) == multiset(b[..i]) + multiset{b[i]} + multiset(b[i + 1..]);
  }

  lemma SplitAt<T>(b: seq<T>, i: nat)
    requires i < |b|
    ensures b == b[..i] + [b[i]] + b[i + 1..]
  {
  }

  lemma SumWhereRemoveAt<T, K>(b: seq<T>, i: nat, key: T -> K, k: K, f: T -> real)
    requires i < |b|
    ensures SumWhere(b, key, k, f) ==
              SumWhere(b[..i] + b[i + 1..], key, k, f) + (if key(b[i]) == k then f(b[i]) else 0.0)
  {
    var front, x, back := b[..i], b[i], b[i + 1..];
    SplitAt(b, i);
    assert SumWhere([x], key, k, f) == (if key(x) == k then f(x) else 0.0) by {
      assert [x][..0] == [];
    }
    SumWhereAppend(front, [x], key, k, f);
    SumWhereAppend(front + [x], back, key, k, f);
    SumWhereAppend(front, back, key, k, f);
  }

  lemma CountWhereRemoveAt<T, K>(b: seq<T>, i: nat, key: T -> K, k: K)
    requires i < |b|
    ensures CountWhere(b, key, k) == CountWhere(b[..i] + b[i + 1..], key, k) + (if key(b[i]) == k then 1 else 0)
  {
    var front, x, back := b[..i], b[i], b[i + 1..];
    SplitAt(b, i);
    assert CountWhere([x], key, k) == (if key(x) == k then 1 else 0) by {
      assert [x][..0] == [];
    }
    CountWhereAppend(front, [x], key, k);
    CountWhereAppend(front + [x], back, key, k);
    CountWhereAppend(front, back, key, k);
  }

  /** A keyed sum does not depend on the order of the elements. */
  lemma {:induction false} SumWherePermutation<T, K>(a: seq<T>, b: seq<T>, key: T -> K, k: K, f: T -> real)
    requires multiset(a) == multiset(b)
    ensures SumWhere(a, key, k, f) == SumWhere(b, key, k, f)
    decreases |a|
  {
    if a == [] {
      assert |b| == |multiset(b)| == 0;
      assert b == [];
    } else {
      var init, x := a[..|a| - 1], a[|a| - 1];
      RemoveLast(a);
      assert x in multiset(b);
      var i :| 0 <= i < |b| && b[i] == x;
      RemoveAt(b, i);
      SumWherePermutation(init, b[..i] + b[i + 1..], key, k, f);
      SumWhereRemoveAt(b, i, key, k, f);
    }
  }

  /** A keyed count does not depend on the order of the elements. */
  lemma {:induction false} CountWherePermutation<T, K>(a: seq<T>, b: seq<T>, key: T -> K, k: K)
    requires multiset(a) == multiset(b)
    ensures CountWhere(a, key, k) == CountWhere(b, key, k)
    decreases |a|
  {
    if a == [] {
      assert |b| == |multiset(b)| == 0;
      assert b == [];
    } else {
      var init, x := a[..|a| - 1], a[|a| - 1];
      RemoveLast(a);
      assert x in multiset(b);
      var i :| 0 <= i < |b| && b[i] == x;
      RemoveAt(b, i);
      CountWherePermutation(init, b[..i] + b[i + 1..], key, k);
      CountWhereRemoveAt(b, i, key, k);
    }
  }

  /** The keyed sums of `s`, added up over the keys `ks`. */
  function SumOverKeys<T, K(==)>(s: seq<T>, key: T -> K, ks: seq<K>, f: T -> real): real
  {
    if ks == [] then 0.0
    else SumOverKeys(s, key, ks[..|ks| - 1], f) + SumWhere(s, key, ks[|ks| - 1], f)
  }

  /** The keyed counts of `s`, added up over the keys `ks`. */
  function CountOverKeys<T, K(==)>(s: seq<T>, key: T -> K, ks: seq<K>): int
  {
    if ks == [] then 0
    else CountOverKeys(s, key, ks[..|ks| - 1]) + CountWhere(s, key, ks[|ks| - 1])
  }

  lemma {:induction false} SumWhereAbsent<T, K>(s: seq<T>, key: T -> K, k: K, f: T -> real)
    requires forall x :: x in s ==> key(x) != k
    ensures SumWhere(s, key, k, f) == 0.0
  {
    if s != [] {
      SumWhereAbsent(s[..|s| - 1], key, k, f);
    }
  }

  lemma {:induction false} SumOverKeysStep<T, K>(s: seq<T>, x: T, key: T -> K, ks: seq<K>, f: T -> real)
    requires NoDuplicates(ks)
    ensures SumOverKeys(s + [x], key, ks, f)
            == SumOverKeys(s, key, ks, f) + (if key(x) in ks then f(x) else 0.0)
  {
    if ks != [] {
      var init := ks[..|ks| - 1];
      assert (s + [x])[..|s|] == s;
      SumOverKeysStep(s, x, key, init, f);
      assert key(x) in ks <==> key(x) in init || key(x) == ks[|ks| - 1];
      assert key(x) == ks[|ks| - 1] ==> key(x) !in init;
    }
  }

  lemma {:induction false} CountOverKeysStep<T, K>(s: seq<T>, x: T, key: T -> K, ks: seq<K>)
    requires NoDuplicates(ks)
    ensures CountOverKeys(s + [x], key, ks)
            == CountOverKeys(s, key, ks) + (if key(x) in ks then 1 else 0)
  {
    if ks != [] {
      var init := ks[..|ks| - 1];
      assert (s + [x])[..|s|] == s;
      CountOverKeysStep(s, x, key, init);
      assert key(x) in ks <==> key(x) in init || key(x) == ks[|ks| - 1];
      assert key(x) == ks[|ks| - 1] ==> key(x) !in init;
    }
  }

  lemma {:induction false} SumOverKeysOfNothing<T, K>(key: T -> K, ks: seq<K>, f: T -> real)
    ensures SumOverKeys([], key, ks, f) == 0.0
  {
    if ks != [] {
      SumOverKeysOfNothing(key, ks[..|ks| - 1], f);
    }
  }

  /** Adding up the keyed sums over distinct keys that cover exactly the elements whose other
      key `key2` is `k2` gives the sum over those elements. */
  lemma {:induction false} SumOverKeysIsSumWhere<T, K, L>(s: seq<T>, key: T -> K, ks: seq<K>, f: T -> real,
                                                         key2: T -> L, k2: L)
    requires NoDuplicates(ks)
    requires forall x | x in s :: key(x) in ks <==> key2(x) == k2
    ensures SumOverKeys(s, key, ks, f) == SumWhere(s, key2, k2, f)
  {
    if s == [] {
      SumOverKeysOfNothing(key, ks, f);
    } else {
      var init, x := s[..|s| - 1], s[|s| - 1];
      InitLast(s);
      SumOverKeysIsSumWhere(init, key, ks, f, key2, k2);
      SumOverKeysStep(init, x, key, ks, f);
    }
  }

  /** Adding up the keyed sums over every distinct key gives the sum over all elements. */
  lemma {:induction false} PartitionSum<T, K>(s: seq<T>, key: T -> K, f: T -> real)
    ensures SumOverKeys(s, key, FirstSeen(KeysOf(s, key)), f) == Sum(s, f)
  {
    if s != [] {
      var init, x := s[..|s| - 1], s[|s| - 1];
      InitLast(s);
      PartitionSum(init, key, f);
      var ks := FirstSeen(KeysOf(init, key));
      FirstSeenFacts(KeysOf(init, key));
      FirstSeenKeysStep(init, x, key);
      SumOverKeysStep(init, x, key, ks, f);
      if key(x) !in ks {
        assert (ks + [key(x)])[..|ks|] == ks;
        forall y | y in init ensures key(y) != key(x) {
          var m :| 0 <= m < |init| && init[m] == y;
          assert KeysOf(init, key)[m] == key(y);
        }
        SumWhereAbsent(init, key, key(x), f);
      }
    }
  }

  /** Adding up the keyed counts over every distinct key gives the number of elements. */
  lemma {:induction false} PartitionCount<T, K>(s: seq<T>, key: T -> K)
    ensures CountOverKeys(s, key, FirstSeen(KeysOf(s, key))) == |s|
  {
    if s != [] {
      var init, x := s[..|s| - 1], s[|s| - 1];
      InitLast(s);
      PartitionCount(init, key);
      var ks := FirstSeen(KeysOf(init, key));
      FirstSeenFacts(KeysOf(init, key));
      FirstSeenKeysStep(init, x, key);
      CountOverKeysStep(init, x, key, ks);
      if key(x) !in ks {
        assert (ks + [key(x)])[..|ks|] == ks;
        forall y | y in init ensures key(y) != key(x) {
          var m :| 0 <= m < |init| && init[m] == y;
          assert KeysOf(init, key)[m] == key(y);
        }
        assert CountWhere(init, key, key(x)) == 0;
      }
    }
  }

  /** The distinct keys after one more element: its key is appended when it is new. */
  lemma FirstSeenKeysStep<T, K>(s: seq<T>, x: T, key: T -> K)
    ensures FirstSeen(KeysOf(s + [x], key)) ==
              if key(x) in FirstSeen(KeysOf(s, key)) then FirstSeen(KeysOf(s, key))
              else FirstSeen(KeysOf(s, key)) + [key(x)]
  {
    assert (s + [x])[..|s|] == s;
    assert KeysOf(s + [x], key) == KeysOf(s, key) + [key(x)];
    assert (KeysOf(s, key) + [key(x)])[..|s|] == KeysOf(s, key);
  }

  /** Extending a prefix by one element. */
  lemma PrefixStep<T>(s: seq<T>, i: nat)
    requires i < |s|
    ensures s[..i + 1] == s[..i] + [s[i]]
  {
  }

  /** A non-empty sequence is its front followed by its last element. */
  lemma InitLast<T>(s: seq<T>)
    requires s != []
    ensures s == s[..|s| - 1] + [s[|s| - 1]]
  {
  }

  /** Setting a key twice keeps the second value. */
  lemma MapOverwrite<K, V>(m: map<K, V>, k: K, a: V, b: V)
    ensures m[k := a][k := b] == m[k := b]
  {
  }

  /** `find` returns the element at the first index whose key matches. */
  lemma {:induction false} FirstWhereIsFirst<T, K>(s: seq<T>, key: T -> K, k: K, i: nat)
    requires i < |s| && key(s[i]) == k
    requires forall j :: 0 <= j < i ==> key(s[j]) != k
    ensures FirstWhere(s, key, k) == Some(s[i])
  {
    if i > 0 {
      FirstWhereIsFirst(s[1..], key, k, i - 1);
    }
  }

  /** Two filters that never both hold keep, together, at most every element. */
  lemma {:induction false} FilterDisjointLengths<T>(s: seq<T>, p: T -> bool, q: T -> bool)
    requires forall x :: x in s ==> !(p(x) && q(x))
    ensures |FilterBy(s, p)| + |FilterBy(s, q)| <= |s|
  {
    if s != [] {
      assert s[|s| - 1] in s;
      FilterDisjointLengths(s[..|s| - 1], p, q);
    }
  }

  /** Filters whose predicates agree on the elements of `s` keep the same elements. */
  lemma {:induction false} FilterAgreeing<T>(s: seq<T>, p: T -> bool, q: T -> bool)
    requires forall x :: x in s ==> p(x) == q(x)
    ensures FilterBy(s, p) == FilterBy(s, q)
  {
    if s != [] {
      assert s[|s| - 1] in s;
      FilterAgreeing(s[..|s| - 1], p, q);
    }
  }
}
