/**
 * The intermediate store of `SharedData`: a fixed array of MaxKeyValPairs
 * `keyval_t` slots and `intermediate_count`, filled by
 * `insert_intermediate_pair` while the parent collects the mappers' output,
 * then sorted in place by the shuffler.
 */
module Store {
  import opened Config
  import opened CStrings
  import opened KeyValues
  import opened Shuffle

  /** A pair as the store keeps it: the key cut to MaxWordLen - 1 characters. */
  function Stored(kv: KeyVal): (r: KeyVal)
    ensures r.key == Truncate(kv.key) && r.value == kv.value
    ensures |r.key| < MaxWordLen
    ensures |kv.key| < MaxWordLen ==> r == kv
  {
    KeyVal(Truncate(kv.key), kv.value)
  }

  function StoredAll(kvs: seq<KeyVal>): (r: seq<KeyVal>)
    ensures |r| == |kvs|
  {
    seq(|kvs|, i requires 0 <= i < |kvs| => Stored(kvs[i]))
  }

  /**
   * What a store of MaxKeyValPairs slots keeps of the items offered to it, in
   * order: all of them when they fit, otherwise exactly the first
   * MaxKeyValPairs; the rest are dropped without notice.
   */
  function Bounded<T>(s: seq<T>): (r: seq<T>)
    ensures r <= s && |r| <= MaxKeyValPairs
    ensures |s| <= MaxKeyValPairs ==> r == s
    ensures |s| > MaxKeyValPairs ==> |r| == MaxKeyValPairs
  {
    if |s| <= MaxKeyValPairs then s else s[..MaxKeyValPairs]
  }

  /**
   * Offering pairs in two batches keeps the same as offering them at once:
   * once the store is full every later pair is ignored.
   */
  lemma BoundedAppend<T>(a: seq<T>, b: seq<T>)
    ensures Bounded(Bounded(a) + b) == Bounded(a + b)
  {
    if |a| > MaxKeyValPairs {
      assert (a + b)[..MaxKeyValPairs] == a[..MaxKeyValPairs];
      assert (a[..MaxKeyValPairs] + b)[..MaxKeyValPairs] == a[..MaxKeyValPairs];
    }
  }

  /** Truncating keys that already fit changes nothing. */
  lemma {:induction false} StoredAllFit(kvs: seq<KeyVal>)
    requires KeysFit(kvs)
    ensures StoredAll(kvs) == kvs
  {
    assert forall i :: 0 <= i < |kvs| ==> StoredAll(kvs)[i] == Stored(kvs[i]) == kvs[i];
  }

  lemma StoredAllAppend(a: seq<KeyVal>, b: seq<KeyVal>)
    ensures StoredAll(a + b) == StoredAll(a) + StoredAll(b)
  {
  }

  /** Sorting moves pairs around but keeps them all, so every key still fits. */
  lemma KeysFitSorted(s: seq<KeyVal>)
    requires KeysFit(s)
    ensures KeysFit(InsSort(s))
  {
    var r := InsSort(s);
    InsSortPermutes(s);
    forall i | 0 <= i < |r| ensures |r[i].key| < MaxWordLen {
      assert r[i] in multiset(r);
      assert r[i] in multiset(s);
      var k :| 0 <= k < |s| && s[k] == r[i];
    }
  }

  /** `shared.intermediate` and `shared.intermediate_count`. */
  class IntermediateStore {
    const pairs: array<KeyVal>
    var count: nat

    ghost predicate Valid()
      reads this, pairs
    {
      pairs.Length == MaxKeyValPairs && count <= pairs.Length && KeysFit(pairs[..count])
    }

    /** The pairs stored so far, in the order they were stored. */
    function Contents(): (s: seq<KeyVal>)
      reads this, pairs
      requires Valid()
      ensures |s| <= MaxKeyValPairs && KeysFit(s)
    {
      pairs[..count]
    }

    /** `shared.intermediate_count = 0`. */
    constructor ()
      ensures Valid() && fresh(pairs)
      ensures Contents() == []
    {
      pairs := new KeyVal[MaxKeyValPairs](_ => KeyVal([], 0));
      count := 0;
    }

    /**
     * `insert_intermediate_pair`: with a free slot, the pair goes into slot
     * `count` (key truncated) and `count` grows by one; with the store full
     * nothing changes.
     */
    method Insert(key: string, value: int)
      requires Valid()
      modifies this, pairs
      ensures Valid()
      ensures old(count) < MaxKeyValPairs ==> count == old(count) + 1 && pairs[old(count)] == Stored(KeyVal(key, value))
      ensures old(count) == MaxKeyValPairs ==> count == old(count)
      ensures forall k :: 0 <= k < old(count) ==> pairs[k] == old(pairs[k])
      ensures Contents() == Bounded(old(Contents()) + [Stored(KeyVal(key, value))])
    {
      if count < MaxKeyValPairs {
        pairs[count] := Stored(KeyVal(key, value));
        count := count + 1;
      }
    }

    /**
     * One mapper's share of the collection loop: every pair read back from
     * the mapper is handed to `insert_intermediate_pair`, in order.
     */
    method Collect(kvs: seq<KeyVal>)
      requires Valid()
      modifies this, pairs
      ensures Valid()
      ensures Contents() == Bounded(old(Contents()) + StoredAll(kvs))
    {
      ghost var before := Contents();
      for i := 0 to |kvs|
        invariant Valid()
        invariant Contents() == Bounded(before + StoredAll(kvs[..i]))
      {
        Insert(kvs[i].key, kvs[i].value);
        BoundedAppend(before + StoredAll(kvs[..i]), [Stored(kvs[i])]);
        assert StoredAll(kvs[..i + 1]) == StoredAll(kvs[..i]) + [Stored(kvs[i])];
        assert before + StoredAll(kvs[..i + 1]) == before + StoredAll(kvs[..i]) + [Stored(kvs[i])];
      }
      assert kvs[..|kvs|] == kvs;
    }

    /** `shuffler`: sorts the stored pairs in place by key; the free slots are left alone. */
    method Shuffle()
      requires Valid()
      modifies pairs
      ensures Valid()
      ensures Contents() == InsSort(old(Contents()))
      ensures pairs[count..] == old(pairs[count..])
    {
      KeysFitSorted(pairs[..count]);
      InsertionSort(pairs, count);
    }
  }
}
