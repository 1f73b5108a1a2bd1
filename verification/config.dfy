/**
 * Compile-time limits of the word-count program and the generic sequence
 * helpers the other modules share.
 */
module Config {

  /** Most words `split_into_words` keeps. */
  const MaxWords: nat := 100

  /** Size of a key buffer, NUL included: a key holds at most MaxWordLen - 1 characters. */
  const MaxWordLen: nat := 50

  /** Capacity of the intermediate store. */
  const MaxKeyValPairs: nat := 200

  /** Words handed to one mapper at most (the divisor in the mapper-count heuristic). */
  const WordsPerMapper: nat := 20

  /** The concatenation of a sequence of sequences, in order. */
  function Concat<T>(ss: seq<seq<T>>): seq<T>
  {
    if ss == [] then [] else Concat(ss[..|ss| - 1]) + ss[|ss| - 1]
  }

  lemma ConcatSnoc<T>(ss: seq<seq<T>>, s: seq<T>)
    ensures Concat(ss + [s]) == Concat(ss) + s
  {
    assert (ss + [s])[..|ss|] == ss;
  }

  lemma {:induction false} ConcatCons<T>(s: seq<T>, ss: seq<seq<T>>)
    ensures Concat([s] + ss) == s + Concat(ss)
    decreases |ss|
  {
    if ss == [] {
      assert [s] + ss == [] + [s];
      ConcatSnoc([], s);
    } else {
      var init, last := ss[..|ss| - 1], ss[|ss| - 1];
      assert ss == init + [last];
      assert [s] + ss == ([s] + init) + [last];
      ConcatSnoc([s] + init, last);
      ConcatCons(s, init);
      ConcatSnoc(init, last);
    }
  }

  /** Taking the last element off `p + q`, for a non-empty `q`. */
  lemma SplitLast<T>(p: seq<T>, q: seq<T>)
    requires q != []
    ensures (p + q)[..|p + q| - 1] == p + q[..|q| - 1]
    ensures (p + q)[|p + q| - 1] == q[|q| - 1]
    ensures q == q[..|q| - 1] + [q[|q| - 1]]
  {
  }

  lemma Regroup<T>(a: seq<T>, b: seq<T>, c: seq<T>, y: T)
    ensures a + b + c + [y] == a + b + (c + [y])
  {
  }

  lemma InitLast<T>(s: seq<T>)
    requires s != []
    ensures s == s[..|s| - 1] + [s[|s| - 1]]
  {
  }

  lemma Assoc<T>(a: seq<T>, b: seq<T>, c: seq<T>)
    ensures a + (b + c) == a + b + c
  {
  }

  lemma Split3<T>(s: seq<T>, a: nat, b: nat)
    requires a <= b <= |s|
    ensures s == s[..a] + s[a..b] + s[b..]
  {
  }
}
