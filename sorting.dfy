/** `Array.prototype.sort` with a comparator, as the dashboard uses it on copied arrays.
    The engine's sort is stable, so for a consistent comparator its result is the stable
    insertion sort defined here: a permutation of the input, ordered by the comparator,
    in which elements that compare equal keep their input order. */
module Sorting {
  import opened Common
  import opened Seqs

  /** A comparator whose sign behaves like a total preorder, as JavaScript's sort requires:
      swapping the operands flips the sign, and "not after" is transitive. */
  ghost predicate TotalPreorder<T(!new)>(cmp: (T, T) -> real)
  {
    && (forall a, b {:trigger cmp(a, b), cmp(b, a)} :: cmp(a, b) > 0.0 <==> cmp(b, a) < 0.0)
    && (forall a, b, c {:trigger cmp(a, b), cmp(b, c), cmp(a, c)} ::
          cmp(a, b) <= 0.0 && cmp(b, c) <= 0.0 ==> cmp(a, c) <= 0.0)
  }

  /** No element of `s` sorts after a later one. */
  ghost predicate Sorted<T>(s: seq<T>, cmp: (T, T) -> real)
  {
    forall i, j :: 0 <= i < j < |s| ==> cmp(s[i], s[j]) <= 0.0
  }

  /** Puts `x` in front of the first element of `s` that sorts strictly after it. */
  function Insert<T>(x: T, s: seq<T>, cmp: (T, T) -> real): (r: seq<T>)
    ensures multiset(r) == multiset(s) + multiset{x}
  {
    if s == [] then [x]
    else if cmp(s[0], x) > 0.0 then [x] + s
    else
      assert s == [s[0]] + s[1..];
      [s[0]] + Insert(x, s[1..], cmp)
  }

  /** `[...s].sort(cmp)`: inserts the elements one by one, in input order. */
  function StableSort<T>(s: seq<T>, cmp: (T, T) -> real): (r: seq<T>)
    ensures multiset(r) == multiset(s)
    ensures |r| == |s|
  {
    if s == [] then []
    else
      InitLast(s);
      var r := Insert(s[|s| - 1], StableSort(s[..|s| - 1], cmp), cmp);
      assert |r| == |multiset(r)| == |multiset(s)| == |s|;
      r
  }

  /** Prepending an element that sorts before every element keeps a sequence sorted. */
  lemma SortedCons<T>(a: T, u: seq<T>, cmp: (T, T) -> real)
    requires Sorted(u, cmp)
    requires forall i :: 0 <= i < |u| ==> cmp(a, u[i]) <= 0.0
    ensures Sorted([a] + u, cmp)
  {
    forall i, j | 0 <= i < j < |u| + 1 ensures cmp(([a] + u)[i], ([a] + u)[j]) <= 0.0 {
      if i > 0 {
        assert ([a] + u)[i] == u[i - 1] && ([a] + u)[j] == u[j - 1];
      }
    }
  }

  /** A lower bound of `x` and of every element of `s` bounds every element of the
      insertion. */
  lemma InsertBounded<T>(x: T, s: seq<T>, cmp: (T, T) -> real, a: T)
    requires cmp(a, x) <= 0.0
    requires forall j :: 0 <= j < |s| ==> cmp(a, s[j]) <= 0.0
    ensures forall i :: 0 <= i < |Insert(x, s, cmp)| ==> cmp(a, Insert(x, s, cmp)[i]) <= 0.0
  {
    var u := Insert(x, s, cmp);
    forall i | 0 <= i < |u| ensures cmp(a, u[i]) <= 0.0 {
      var y := u[i];
      assert y in multiset(u);
      if y != x {
        assert y in multiset(s);
        var j :| 0 <= j < |s| && s[j] == y;
      }
    }
  }

  lemma {:induction false} InsertSorted<T(!new)>(x: T, s: seq<T>, cmp: (T, T) -> real)
    requires TotalPreorder(cmp) && Sorted(s, cmp)
    ensures Sorted(Insert(x, s, cmp), cmp)
  {
    if s == [] {
    } else if cmp(s[0], x) > 0.0 {
      assert cmp(x, s[0]) < 0.0;
      forall j | 0 <= j < |s| ensures cmp(x, s[j]) <= 0.0 {
        if j > 0 {
          assert cmp(s[0], s[j]) <= 0.0;
        }
      }
      SortedCons(x, s, cmp);
    } else {
      var t := s[1..];
      InsertSorted(x, t, cmp);
      assert forall j :: 0 <= j < |t| ==> cmp(s[0], t[j]) <= 0.0 by {
        forall j | 0 <= j < |t| ensures cmp(s[0], t[j]) <= 0.0 {
          assert t[j] == s[j + 1];
        }
      }
      InsertBounded(x, t, cmp, s[0]);
      SortedCons(s[0], Insert(x, t, cmp), cmp);
    }
  }

  /** The sort orders its result by the comparator. */
  lemma {:induction false} SortSorted<T(!new)>(s: seq<T>, cmp: (T, T) -> real)
    requires TotalPreorder(cmp)
    ensures Sorted(StableSort(s, cmp), cmp)
  {
    if s != [] {
      SortSorted(s[..|s| - 1], cmp);
      InsertSorted(s[|s| - 1], StableSort(s[..|s| - 1], cmp), cmp);
    }
  }

  /** The elements of `s` that compare equal to `k`, in their order in `s`. */
  function TiesWith<T>(s: seq<T>, k: T, cmp: (T, T) -> real): seq<T>
  {
    if s == [] then []
    else (if cmp(s[0], k) == 0.0 then [s[0]] else []) + TiesWith(s[1..], k, cmp)
  }

  lemma {:induction false} TiesWithAppend<T>(a: seq<T>, b: seq<T>, k: T, cmp: (T, T) -> real)
    ensures TiesWith(a + b, k, cmp) == TiesWith(a, k, cmp) + TiesWith(b, k, cmp)
  {
    if a == [] {
      assert a + b == b;
    } else {
      var ab := a + b;
      assert ab[0] == a[0] && ab[1..] == a[1..] + b;
      var h := if cmp(a[0], k) == 0.0 then [a[0]] else [];
      TiesWithAppend(a[1..], b, k, cmp);
      assert TiesWith(ab, k, cmp) == h + (TiesWith(a[1..], k, cmp) + TiesWith(b, k, cmp));
      assert TiesWith(a, k, cmp) == h + TiesWith(a[1..], k, cmp);
    }
  }

  lemma {:induction false} TiesWithNone<T>(s: seq<T>, k: T, cmp: (T, T) -> real)
    requires forall j :: 0 <= j < |s| ==> cmp(s[j], k) != 0.0
    ensures TiesWith(s, k, cmp) == []
  {
    if s != [] {
      TiesWithNone(s[1..], k, cmp);
    }
  }

  /** Nothing in a sorted sequence whose head sorts after `x` ties with an element that
      ties with `x`. */
  lemma NoTiesAfter<T(!new)>(x: T, s: seq<T>, k: T, cmp: (T, T) -> real)
    requires TotalPreorder(cmp) && Sorted(s, cmp)
    requires s != [] && cmp(s[0], x) > 0.0 && cmp(x, k) == 0.0
    ensures forall j :: 0 <= j < |s| ==> cmp(s[j], k) != 0.0
  {
    assert cmp(k, x) <= 0.0;
    forall j | 0 <= j < |s| ensures cmp(s[j], k) != 0.0 {
      assert j == 0 || cmp(s[0], s[j]) <= 0.0;
      assert cmp(s[j], x) > 0.0;
    }
  }

  /** `x` goes in front of `s`: the ties of the result are `x`'s and those of `s`. */
  lemma InsertTiesFront<T>(x: T, s: seq<T>, k: T, cmp: (T, T) -> real)
    requires s != [] && cmp(s[0], x) > 0.0
    requires cmp(x, k) == 0.0 ==> TiesWith(s, k, cmp) == []
    ensures TiesWith(Insert(x, s, cmp), k, cmp)
            == TiesWith(s, k, cmp) + (if cmp(x, k) == 0.0 then [x] else [])
  {
    var r := [x] + s;
    assert Insert(x, s, cmp) == r;
    assert r[0] == x && r[1..] == s;
  }

  lemma ConcatAssociative<T>(a: seq<T>, b: seq<T>, c: seq<T>)
    ensures a + (b + c) == (a + b) + c
  {
  }

  /** `x` goes after the head of `s`: the head's tie comes first, then those of the
      insertion into the tail. */
  lemma InsertTiesStep<T>(x: T, s: seq<T>, k: T, cmp: (T, T) -> real)
    requires s != [] && !(cmp(s[0], x) > 0.0)
    requires TiesWith(Insert(x, s[1..], cmp), k, cmp)
             == TiesWith(s[1..], k, cmp) + (if cmp(x, k) == 0.0 then [x] else [])
    ensures TiesWith(Insert(x, s, cmp), k, cmp)
            == TiesWith(s, k, cmp) + (if cmp(x, k) == 0.0 then [x] else [])
  {
    var xs := if cmp(x, k) == 0.0 then [x] else [];
    var hs := if cmp(s[0], k) == 0.0 then [s[0]] else [];
    var u := Insert(x, s[1..], cmp);
    var r := [s[0]] + u;
    assert Insert(x, s, cmp) == r;
    assert r[0] == s[0] && r[1..] == u;
    var ts := TiesWith(s[1..], k, cmp);
    assert TiesWith(r, k, cmp) == hs + (ts + xs);
    assert TiesWith(s, k, cmp) == hs + ts;
    ConcatAssociative(hs, ts, xs);
  }

  lemma SortedTail<T>(s: seq<T>, cmp: (T, T) -> real)
    requires s != [] && Sorted(s, cmp)
    ensures Sorted(s[1..], cmp)
  {
    forall i, j | 0 <= i < j < |s| - 1 ensures cmp(s[1..][i], s[1..][j]) <= 0.0 {
      assert s[1..][i] == s[i + 1] && s[1..][j] == s[j + 1];
    }
  }

  lemma {:induction false} InsertTies<T(!new)>(x: T, s: seq<T>, k: T, cmp: (T, T) -> real)
    requires TotalPreorder(cmp) && Sorted(s, cmp)
    ensures TiesWith(Insert(x, s, cmp), k, cmp)
            == TiesWith(s, k, cmp) + (if cmp(x, k) == 0.0 then [x] else [])
  {
    if s == [] {
      assert TiesWith([x], k, cmp) == (if cmp(x, k) == 0.0 then [x] else []) + TiesWith([], k, cmp);
    } else if cmp(s[0], x) > 0.0 {
      if cmp(x, k) == 0.0 {
        NoTiesAfter(x, s, k, cmp);
        TiesWithNone(s, k, cmp);
      }
      InsertTiesFront(x, s, k, cmp);
    } else {
      SortedTail(s, cmp);
      InsertTies(x, s[1..], k, cmp);
      InsertTiesStep(x, s, k, cmp);
    }
  }

  /** The sort is stable: elements that compare equal keep their input order. */
  lemma {:induction false} SortStable<T(!new)>(s: seq<T>, k: T, cmp: (T, T) -> real)
    requires TotalPreorder(cmp)
    ensures TiesWith(StableSort(s, cmp), k, cmp) == TiesWith(s, k, cmp)
  {
    if s != [] {
      var init, x := s[..|s| - 1], s[|s| - 1];
      var xs := if cmp(x, k) == 0.0 then [x] else [];
      var sortedInit := StableSort(init, cmp);
      assert StableSort(s, cmp) == Insert(x, sortedInit, cmp);
      SortStable(init, k, cmp);
      SortSorted(init, cmp);
      InsertTies(x, sortedInit, k, cmp);
      assert TiesWith(StableSort(s, cmp), k, cmp) == TiesWith(init, k, cmp) + xs;
      TiesWithLast(s, k, cmp);
    }
  }

  /** The ties of `s` are those of its front, then its last element if it ties. */
  lemma TiesWithLast<T>(s: seq<T>, k: T, cmp: (T, T) -> real)
    requires s != []
    ensures TiesWith(s, k, cmp)
            == TiesWith(s[..|s| - 1], k, cmp) + (if cmp(s[|s| - 1], k) == 0.0 then [s[|s| - 1]] else [])
  {
    var init, x := s[..|s| - 1], s[|s| - 1];
    InitLast(s);
    TiesWithAppend(init, [x], k, cmp);
    assert [x][1..] == [];
    ConcatEmpty(if cmp(x, k) == 0.0 then [x] else []);
  }

  lemma ConcatEmpty<T>(a: seq<T>)
    ensures a + [] == a
  {
  }

  /** The element with key `k` that sorts first, the earliest in `s` among equals:
      a scan that replaces its candidate only by one that sorts strictly before it. */
  function EarliestWhere<T, K(==)>(s: seq<T>, key: T -> K, k: K, cmp: (T, T) -> real): Option<T>
  {
    if s == [] then None
    else
      var best := EarliestWhere(s[..|s| - 1], key, k, cmp);
      var x := s[|s| - 1];
      if key(x) != k then best
      else if best.None? || cmp(best.value, x) > 0.0 then Some(x)
      else best
  }

  /** An element that sorts strictly before a least element sorts strictly before all. */
  lemma AfterAll<T(!new), K>(init: seq<T>, x: T, key: T -> K, k: K, cmp: (T, T) -> real, best: T)
    requires TotalPreorder(cmp)
    requires forall y :: y in init && key(y) == k ==> cmp(best, y) <= 0.0
    requires cmp(best, x) > 0.0
    ensures forall y :: y in init && key(y) == k ==> cmp(y, x) > 0.0 && cmp(x, y) <= 0.0
  {
    forall y | y in init && key(y) == k ensures cmp(y, x) > 0.0 && cmp(x, y) <= 0.0 {
      assert cmp(best, y) <= 0.0;
    }
  }

  /** What `EarliestWhere` picks: an element with key `k` that no other such element sorts
      before; there is one exactly when some element has key `k`. */
  lemma {:induction false} EarliestWhereIsLeast<T(!new), K>(s: seq<T>, key: T -> K, k: K, cmp: (T, T) -> real)
    requires TotalPreorder(cmp)
    ensures EarliestWhere(s, key, k, cmp).Some? <==> exists x :: x in s && key(x) == k
    ensures EarliestWhere(s, key, k, cmp).Some? ==>
              var e := EarliestWhere(s, key, k, cmp).value;
              && e in s && key(e) == k
              && (forall y :: y in s && key(y) == k ==> cmp(e, y) <= 0.0)
  {
    if s != [] {
      var init, x := s[..|s| - 1], s[|s| - 1];
      InitLast(s);
      EarliestWhereIsLeast(init, key, k, cmp);
      var best := EarliestWhere(init, key, k, cmp);
      if key(x) == k && (best.None? || cmp(best.value, x) > 0.0) {
        if best.Some? {
          AfterAll(init, x, key, k, cmp, best.value);
        }
        forall y | y in s && key(y) == k ensures cmp(x, y) <= 0.0 {
          if y != x {
            assert y in init;
          }
        }
      }
    }
  }

  /** Among the elements with key `k` that sort the same, `EarliestWhere` picks the one
      that comes first in `s`. */
  lemma {:induction false} EarliestWhereComesFirst<T(!new), K>(s: seq<T>, key: T -> K, k: K, cmp: (T, T) -> real)
    requires TotalPreorder(cmp)
    ensures EarliestWhere(s, key, k, cmp).Some? ==>
              var e := EarliestWhere(s, key, k, cmp).value;
              exists i :: 0 <= i < |s| && s[i] == e &&
                forall j :: 0 <= j < i && key(s[j]) == k ==> cmp(s[j], e) > 0.0
  {
    if s != [] {
      var init, x := s[..|s| - 1], s[|s| - 1];
      InitLast(s);
      EarliestWhereIsLeast(init, key, k, cmp);
      EarliestWhereComesFirst(init, key, k, cmp);
      var best := EarliestWhere(init, key, k, cmp);
      if key(x) == k && (best.None? || cmp(best.value, x) > 0.0) {
        var i := |s| - 1;
        if best.Some? {
          AfterAll(init, x, key, k, cmp, best.value);
        }
        forall j | 0 <= j < i && key(s[j]) == k ensures cmp(s[j], x) > 0.0 {
          assert s[j] in init;
        }
      } else if best.Some? {
        var e := best.value;
        var i :| 0 <= i < |init| && init[i] == e &&
                 forall j :: 0 <= j < i && key(init[j]) == k ==> cmp(init[j], e) > 0.0;
        assert s[i] == e;
        forall j | 0 <= j < i && key(s[j]) == k ensures cmp(s[j], e) > 0.0 {
          assert s[j] == init[j];
        }
      }
    }
  }

  /** In a sorted sequence whose head sorts after `x`, every element sorts after `x`. */
  lemma AllAfter<T(!new)>(x: T, s: seq<T>, cmp: (T, T) -> real, y: T)
    requires TotalPreorder(cmp) && Sorted(s, cmp)
    requires s != [] && cmp(s[0], x) > 0.0 && y in s
    ensures cmp(y, x) > 0.0
  {
    var j :| 0 <= j < |s| && s[j] == y;
    assert j == 0 || cmp(s[0], s[j]) <= 0.0;
  }

  lemma InsertFirstWhereFront<T, K>(x: T, s: seq<T>, key: T -> K, k: K, cmp: (T, T) -> real)
    requires s != [] && cmp(s[0], x) > 0.0
    requires key(x) == k && FirstWhere(s, key, k).Some? ==> cmp(FirstWhere(s, key, k).value, x) > 0.0
    ensures FirstWhere(Insert(x, s, cmp), key, k) ==
              if key(x) != k then FirstWhere(s, key, k)
              else if FirstWhere(s, key, k).None? || cmp(FirstWhere(s, key, k).value, x) > 0.0 then Some(x)
              else FirstWhere(s, key, k)
  {
    var r := [x] + s;
    assert Insert(x, s, cmp) == r;
    assert r[0] == x && r[1..] == s;
  }

  lemma InsertFirstWhereStep<T, K>(x: T, s: seq<T>, key: T -> K, k: K, cmp: (T, T) -> real)
    requires s != [] && !(cmp(s[0], x) > 0.0)
    requires FirstWhere(Insert(x, s[1..], cmp), key, k) ==
              if key(x) != k then FirstWhere(s[1..], key, k)
              else if FirstWhere(s[1..], key, k).None? || cmp(FirstWhere(s[1..], key, k).value, x) > 0.0 then Some(x)
              else FirstWhere(s[1..], key, k)
    ensures FirstWhere(Insert(x, s, cmp), key, k) ==
              if key(x) != k then FirstWhere(s, key, k)
              else if FirstWhere(s, key, k).None? || cmp(FirstWhere(s, key, k).value, x) > 0.0 then Some(x)
              else FirstWhere(s, key, k)
  {
    var u := Insert(x, s[1..], cmp);
    var r := [s[0]] + u;
    assert Insert(x, s, cmp) == r;
    assert r[0] == s[0] && r[1..] == u;
  }

  lemma {:induction false} InsertFirstWhere<T(!new), K>(x: T, s: seq<T>, key: T -> K, k: K, cmp: (T, T) -> real)
    requires TotalPreorder(cmp) && Sorted(s, cmp)
    ensures FirstWhere(Insert(x, s, cmp), key, k) ==
              if key(x) != k then FirstWhere(s, key, k)
              else if FirstWhere(s, key, k).None? || cmp(FirstWhere(s, key, k).value, x) > 0.0 then Some(x)
              else FirstWhere(s, key, k)
  {
    if s != [] {
      if cmp(s[0], x) > 0.0 {
        var f := FirstWhere(s, key, k);
        if f.Some? {
          AllAfter(x, s, cmp, f.value);
        }
        InsertFirstWhereFront(x, s, key, k, cmp);
      } else {
        SortedTail(s, cmp);
        InsertFirstWhere(x, s[1..], key, k, cmp);
        InsertFirstWhereStep(x, s, key, k, cmp);
      }
    }
  }

  /** The first element with key `k` in the sorted copy is the one that sorts earliest,
      input order breaking ties. */
  lemma {:induction false} SortFirstWhere<T(!new), K>(s: seq<T>, key: T -> K, k: K, cmp: (T, T) -> real)
    requires TotalPreorder(cmp)
    ensures FirstWhere(StableSort(s, cmp), key, k) == EarliestWhere(s, key, k, cmp)
  {
    if s != [] {
      var init, x := s[..|s| - 1], s[|s| - 1];
      SortFirstWhere(init, key, k, cmp);
      SortSorted(init, cmp);
      InsertFirstWhere(x, StableSort(init, cmp), key, k, cmp);
    }
  }

  lemma {:induction false} InsertAfterAll<T>(x: T, s: seq<T>, cmp: (T, T) -> real)
    requires forall j :: 0 <= j < |s| ==> cmp(s[j], x) <= 0.0
    ensures Insert(x, s, cmp) == s + [x]
  {
    if s != [] {
      InsertAfterAll(x, s[1..], cmp);
      assert s == [s[0]] + s[1..];
    }
  }

  /** A comparator that finds no element after another leaves the sequence as it is. */
  lemma {:induction false} SortWithoutOrderIsIdentity<T>(s: seq<T>, cmp: (T, T) -> real)
    requires forall a, b :: cmp(a, b) <= 0.0
    ensures StableSort(s, cmp) == s
  {
    if s != [] {
      var init, x := s[..|s| - 1], s[|s| - 1];
      SortWithoutOrderIsIdentity(init, cmp);
      assert StableSort(s, cmp) == Insert(x, init, cmp);
      InsertAfterAll(x, init, cmp);
      InitLast(s);
    }
  }
}
