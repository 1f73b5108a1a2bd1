/**
 * The intermediate pair `keyval_t` and the sums and selections the reduce
 * phase is specified by.
 */
module KeyValues {
  import opened Config

  /** A `keyval_t`: a word and its count. */
  datatype KeyVal = KeyVal(key: string, value: int)

  /** The pair `(w, 1)` for every word `w`, in order: what the mappers emit. */
  function Ones(ws: seq<string>): (s: seq<KeyVal>)
    ensures |s| == |ws|
  {
    seq(|ws|, i requires 0 <= i < |ws| => KeyVal(ws[i], 1))
  }

  /** The pairs of `s` whose key is `k`, in order. */
  function WithKey(s: seq<KeyVal>, k: string): seq<KeyVal>
  {
    if s == [] then []
    else WithKey(s[..|s| - 1], k) + (if s[|s| - 1].key == k then [s[|s| - 1]] else [])
  }

  /** The sum of the values of `s`. */
  function SumValues(s: seq<KeyVal>): int
  {
    if s == [] then 0 else SumValues(s[..|s| - 1]) + s[|s| - 1].value
  }

  /** Every key fits a `keyval_t` key buffer. */
  predicate KeysFit(s: seq<KeyVal>)
  {
    forall i :: 0 <= i < |s| ==> |s[i].key| < MaxWordLen
  }

  lemma {:induction false} WithKeyAppend(a: seq<KeyVal>, b: seq<KeyVal>, k: string)
    ensures WithKey(a + b, k) == WithKey(a, k) + WithKey(b, k)
    decreases |b|
  {
    if b == [] {
      assert a + b == a;
    } else {
      assert (a + b)[..|a + b| - 1] == a + b[..|b| - 1];
      WithKeyAppend(a, b[..|b| - 1], k);
    }
  }

  lemma {:induction false} SumValuesAppend(a: seq<KeyVal>, b: seq<KeyVal>)
    ensures SumValues(a + b) == SumValues(a) + SumValues(b)
    decreases |b|
  {
    if b == [] {
      assert a + b == a;
    } else {
      assert (a + b)[..|a + b| - 1] == a + b[..|b| - 1];
      SumValuesAppend(a, b[..|b| - 1]);
    }
  }

  /** Selecting by a key every pair has keeps them all. */
  lemma {:induction false} WithKeyAll(s: seq<KeyVal>, k: string)
    requires forall i :: 0 <= i < |s| ==> s[i].key == k
    ensures WithKey(s, k) == s
  {
    if s != [] {
      WithKeyAll(s[..|s| - 1], k);
    }
  }

  /** Selecting by a key no pair has keeps nothing. */
  lemma {:induction false} WithKeyNone(s: seq<KeyVal>, k: string)
    requires forall i :: 0 <= i < |s| ==> s[i].key != k
    ensures WithKey(s, k) == []
  {
    if s != [] {
      WithKeyNone(s[..|s| - 1], k);
    }
  }

  /** Selection by key keeps the multiset of pairs with that key. */
  lemma {:induction false} WithKeyMultiset(s: seq<KeyVal>, k: string, x: KeyVal)
    ensures multiset(WithKey(s, k))[x] == if x.key == k then multiset(s)[x] else 0
  {
    if s != [] {
      InitLast(s);
      WithKeyMultiset(s[..|s| - 1], k, x);
    }
  }

  /** When every value is 1 the sum of the pairs with key `k` is the number of occurrences of `k`. */
  lemma {:induction false} CountOnes(ws: seq<string>, k: string)
    ensures SumValues(WithKey(Ones(ws), k)) == multiset(ws)[k]
  {
    if ws != [] {
      var init := ws[..|ws| - 1];
      assert Ones(ws)[..|ws| - 1] == Ones(init);
      assert ws == init + [ws[|ws| - 1]];
      CountOnes(init, k);
      SumValuesAppend(WithKey(Ones(init), k), if ws[|ws| - 1] == k then [KeyVal(k, 1)] else []);
    }
  }

  lemma OnesAppend(a: seq<string>, b: seq<string>)
    ensures Ones(a + b) == Ones(a) + Ones(b)
  {
  }
}
