/**
 * The shuffler's `insertion_sort`: sorts the intermediate pairs by key under
 * `strcmp`, in place, shifting only past strictly greater keys.
 */
module Shuffle {
  import opened Config
  import opened CStrings
  import opened KeyValues

  /** Keys never decrease under `strcmp`. */
  predicate Sorted(s: seq<KeyVal>)
  {
    forall i, j :: 0 <= i < j < |s| ==> KeyLe(s, i, j)
  }

  /** The key at `i` is not greater than the key at `j` under `strcmp`. */
  predicate KeyLe(s: seq<KeyVal>, i: int, j: int)
    requires 0 <= i < |s| && 0 <= j < |s|
  {
    StrCmp(s[i].key, s[j].key) <= 0
  }

  /**
   * One pass of the outer loop: `x` walks left past every pair whose key is
   * strictly greater than its own and stops at the first that is not.
   */
  function Insert(t: seq<KeyVal>, x: KeyVal): seq<KeyVal>
  {
    if t == [] then [x]
    else if StrCmp(t[|t| - 1].key, x.key) > 0 then Insert(t[..|t| - 1], x) + [t[|t| - 1]]
    else t + [x]
  }

  /** `insertion_sort` as a function: insert the elements one by one, left to right. */
  function InsSort(s: seq<KeyVal>): seq<KeyVal>
  {
    if s == [] then [] else Insert(InsSort(s[..|s| - 1]), s[|s| - 1])
  }

  lemma {:induction false} InsertPermutes(t: seq<KeyVal>, x: KeyVal)
    ensures multiset(Insert(t, x)) == multiset(t) + multiset{x}
    ensures |Insert(t, x)| == |t| + 1
  {
    if t != [] && StrCmp(t[|t| - 1].key, x.key) > 0 {
      InsertPermutes(t[..|t| - 1], x);
      InitLast(t);
    }
  }

  /** Inserting never reorders pairs with equal keys: `x` goes after every pair with its key. */
  lemma {:induction false} InsertStable(t: seq<KeyVal>, x: KeyVal, k: string)
    ensures WithKey(Insert(t, x), k) == WithKey(t, k) + WithKey([x], k)
  {
    if t != [] {
      var init, last := t[..|t| - 1], t[|t| - 1];
      InitLast(t);
      if StrCmp(last.key, x.key) > 0 {
        StrCmpZero(last.key, x.key);
        InsertStable(init, x, k);
        WithKeyAppend(Insert(init, x), [last], k);
        WithKeyAppend(init, [last], k);
      }
      WithKeyAppend(t, [x], k);
    }
  }

  lemma {:induction false} InsertSorted(t: seq<KeyVal>, x: KeyVal)
    requires Sorted(t)
    ensures Sorted(Insert(t, x))
  {
    if t != [] {
      var init, last := t[..|t| - 1], t[|t| - 1];
      if StrCmp(last.key, x.key) > 0 {
        SortedInit(t);
        InsertSorted(init, x);
        var u := Insert(init, x);
        InsertPermutes(init, x);
        forall p | 0 <= p < |u| ensures StrCmp(u[p].key, last.key) <= 0 {
          assert u[p] in multiset(u);
          if u[p] == x {
            StrCmpAntisymmetric(last.key, x.key);
          } else {
            assert u[p] in multiset(init);
            var q :| 0 <= q < |init| && init[q] == u[p];
            assert t[q] == u[p] && KeyLe(t, q, |t| - 1);
          }
        }
        SortedSnoc(u, last);
      } else {
        StrCmpAntisymmetric(last.key, x.key);
        forall p | 0 <= p < |t| ensures StrCmp(t[p].key, x.key) <= 0 {
          if p < |t| - 1 {
            assert KeyLe(t, p, |t| - 1);
            StrCmpTransitive(t[p].key, last.key, x.key);
          }
        }
        SortedSnoc(t, x);
      }
    }
  }

  /** Dropping the last pair keeps the order. */
  lemma SortedInit(t: seq<KeyVal>)
    requires Sorted(t) && t != []
    ensures Sorted(t[..|t| - 1])
  {
    var init := t[..|t| - 1];
    forall i, j | 0 <= i < j < |init| ensures KeyLe(init, i, j) {
      assert KeyLe(t, i, j);
    }
  }

  lemma SortedSnoc(t: seq<KeyVal>, x: KeyVal)
    requires Sorted(t)
    requires forall p :: 0 <= p < |t| ==> StrCmp(t[p].key, x.key) <= 0
    ensures Sorted(t + [x])
  {
    var u := t + [x];
    forall i, j | 0 <= i < j < |u| ensures KeyLe(u, i, j) {
      if j < |t| {
        assert KeyLe(t, i, j);
      }
    }
  }

  /** The result of the sort is a permutation of its input. */
  lemma {:induction false} InsSortPermutes(s: seq<KeyVal>)
    ensures multiset(InsSort(s)) == multiset(s)
    ensures |InsSort(s)| == |s|
  {
    if s != [] {
      var init := s[..|s| - 1];
      InsSortPermutes(init);
      InsertPermutes(InsSort(init), s[|s| - 1]);
      assert s == init + [s[|s| - 1]];
    }
  }

  /** The result of the sort is sorted by key under `strcmp`. */
  lemma {:induction false} InsSortSorted(s: seq<KeyVal>)
    ensures Sorted(InsSort(s))
  {
    if s != [] {
      InsSortSorted(s[..|s| - 1]);
      InsertSorted(InsSort(s[..|s| - 1]), s[|s| - 1]);
    }
  }

  /** The sort is stable: for every key, the pairs with that key keep their relative order. */
  lemma {:induction false} InsSortStable(s: seq<KeyVal>, k: string)
    ensures WithKey(InsSort(s), k) == WithKey(s, k)
  {
    if s != [] {
      var init, last := s[..|s| - 1], s[|s| - 1];
      InsSortStable(init, k);
      InsertStable(InsSort(init), last, k);
      InitLast(s);
      WithKeyAppend(init, [last], k);
    }
  }

  /** Sorting an already sorted sequence changes nothing. */
  lemma {:induction false} InsSortOfSorted(s: seq<KeyVal>)
    requires Sorted(s)
    ensures InsSort(s) == s
  {
    if s != [] {
      var init, last := s[..|s| - 1], s[|s| - 1];
      SortedInit(s);
      InsSortOfSorted(init);
      if init != [] {
        assert KeyLe(s, |s| - 2, |s| - 1);
      }
      InitLast(s);
    }
  }

  /**
   * `insertion_sort(arr, n)`: sorts `a[..n]` in place; the rest of the array
   * is not touched.
   */
  method InsertionSort(a: array<KeyVal>, n: nat)
    requires n <= a.Length
    modifies a
    ensures a[..n] == InsSort(old(a[..n]))
    ensures a[n..] == old(a[n..])
  {
    if n == 0 {
      return;
    }
    var i := 1;
    assert a[..1] == InsSort(a[..1]);
    while i < n
      invariant 1 <= i <= n
      invariant a[..i] == InsSort(old(a[..i]))
      invariant a[i..] == old(a[i..])
    {
      assert old(a[..i + 1]) == old(a[..i]) + [old(a[i])];
      assert a[i] == old(a[i]);
      InsertAt(a, i);
      assert a[i + 1..] == old(a[i + 1..]);
      i := i + 1;
    }
  }

  /**
   * The body of the outer loop of `insertion_sort` for one `i`: take out
   * `arr[i]`, shift the greater keys of the sorted prefix one place right,
   * and drop it into the gap.
   */
  method InsertAt(a: array<KeyVal>, i: nat)
    requires i < a.Length
    modifies a
    ensures a[..i + 1] == Insert(old(a[..i]), old(a[i]))
    ensures a[i + 1..] == old(a[i + 1..])
  {
    ghost var o := a[..];
    var temp := a[i];
    var j := i - 1;
    while j >= 0 && StrCmp(a[j].key, temp.key) > 0
      invariant -1 <= j < i
      invariant a[..] == o[..j + 2] + o[j + 1..i] + o[i + 1..]
      invariant forall k :: j < k < i ==> StrCmp(o[k].key, temp.key) > 0
    {
      ShiftStep(o, i, j);
      a[j + 1] := a[j];
      j := j - 1;
    }
    a[j + 1] := temp;
    Landed(o, i, j, temp, a[..]);
  }

  /** One shift of the inner loop, as a fact about the array contents. */
  lemma ShiftStep(o: seq<KeyVal>, i: nat, j: int)
    requires 0 <= j < i < |o|
    ensures (o[..j + 2] + o[j + 1..i] + o[i + 1..])[j + 1 := o[j]] == o[..j + 1] + o[j..i] + o[i + 1..]
  {
  }

  /** After the inner loop: `temp` lands in the gap, where `Insert` puts it. */
  lemma Landed(o: seq<KeyVal>, i: nat, j: int, x: KeyVal, r: seq<KeyVal>)
    requires -1 <= j < i < |o|
    requires j >= 0 ==> StrCmp(o[j].key, x.key) <= 0
    requires forall k :: j < k < i ==> StrCmp(o[k].key, x.key) > 0
    requires r == (o[..j + 2] + o[j + 1..i] + o[i + 1..])[j + 1 := x]
    ensures r[..i + 1] == Insert(o[..i], x)
    ensures r[i + 1..] == o[i + 1..]
  {
    var p, q := o[..j + 1], o[j + 1..i];
    FillGap(o, i, j, x);
    InsertLands(p, q, x);
    assert r == (p + [x] + q) + o[i + 1..];
  }

  /** Filling the gap, as a fact about sequences alone. */
  lemma FillGap<T>(o: seq<T>, i: nat, j: int, x: T)
    requires -1 <= j < i < |o|
    ensures o[..i] == o[..j + 1] + o[j + 1..i]
    ensures (o[..j + 2] + o[j + 1..i] + o[i + 1..])[j + 1 := x] == o[..j + 1] + [x] + o[j + 1..i] + o[i + 1..]
  {
  }

  /**
   * Where `x` lands: after a prefix `p` whose last key is not greater than its
   * own, and before the pairs `q` that all have strictly greater keys.
   */
  lemma {:induction false} InsertLands(p: seq<KeyVal>, q: seq<KeyVal>, x: KeyVal)
    requires p != [] ==> StrCmp(p[|p| - 1].key, x.key) <= 0
    requires forall k :: 0 <= k < |q| ==> StrCmp(q[k].key, x.key) > 0
    ensures Insert(p + q, x) == p + [x] + q
    decreases |q|
  {
    if q == [] {
      assert p + q == p;
    } else {
      var init, last := q[..|q| - 1], q[|q| - 1];
      SplitLast(p, q);
      assert StrCmp(last.key, x.key) > 0;
      assert Insert(p + q, x) == Insert(p + init, x) + [last];
      InsertLands(p, init, x);
      Regroup(p, [x], init, last);
    }
  }
}
