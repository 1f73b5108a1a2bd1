/**
 * The reduce phase: the scan in `main` that cuts the sorted intermediate
 * pairs into maximal runs of equal keys, one `reducer_arg_t` per run, and
 * `reducer_thread`, which sums the values of one run.
 */
module Reduce {
  import opened Config
  import opened CStrings
  import opened KeyValues
  import opened Shuffle

  /** A `reducer_arg_t`: the run's key and its first and last index (both inclusive). */
  datatype ReducerTask = ReducerTask(key: string, start: nat, end: nat)

  /** What one reducer reports: `key : sum`. */
  datatype FinalCount = FinalCount(key: string, total: int)

  /** The tasks' ranges are non-empty and follow each other without gap or overlap, covering `[0, n)`. */
  predicate Tiles(tasks: seq<ReducerTask>, n: nat)
  {
    (tasks == [] <==> n == 0) &&
    (tasks != [] ==> tasks[0].start == 0 && tasks[|tasks| - 1].end == n - 1) &&
    (forall i :: 0 <= i < |tasks| ==> tasks[i].start <= tasks[i].end < n) &&
    (forall i :: 0 < i < |tasks| ==> tasks[i].start == tasks[i - 1].end + 1)
  }

  /**
   * The task is a maximal run of equal keys of `s`, carrying the key of its
   * first pair (cut to MaxWordLen - 1 characters).
   */
  predicate IsRun(s: seq<KeyVal>, t: ReducerTask)
  {
    t.start <= t.end < |s| &&
    t.key == Truncate(s[t.start].key) &&
    (forall k :: t.start <= k <= t.end ==> s[k].key == s[t.start].key) &&
    (t.end + 1 < |s| ==> s[t.end + 1].key != s[t.start].key)
  }

  predicate Runs(s: seq<KeyVal>, tasks: seq<ReducerTask>)
  {
    forall i :: 0 <= i < |tasks| ==> IsRun(s, tasks[i])
  }

  predicate Grouping(s: seq<KeyVal>, tasks: seq<ReducerTask>)
  {
    Tiles(tasks, |s|) && Runs(s, tasks)
  }

  /**
   * The scan over the sorted pairs: from `start`, `end` advances while the
   * next key equals the key at `start`; the run `[start, end]` becomes a
   * task and the scan resumes at `end + 1`.
   */
  method GroupScan(s: seq<KeyVal>) returns (tasks: seq<ReducerTask>)
    ensures Grouping(s, tasks)
  {
    tasks := [];
    var start := 0;
    while start < |s|
      invariant start <= |s|
      invariant Tiles(tasks, start) && Runs(s, tasks)
    {
      var end := RunEnd(s, start);
      var task := ReducerTask(Truncate(s[start].key), start, end);
      TilesSnoc(tasks, task);
      RunsSnoc(s, tasks, task);
      tasks := tasks + [task];
      start := end + 1;
    }
  }

  /** The inner loop of the scan: `end` advances while the next key equals the key at `start`. */
  method RunEnd(s: seq<KeyVal>, start: nat) returns (end: nat)
    requires start < |s|
    ensures IsRun(s, ReducerTask(Truncate(s[start].key), start, end))
  {
    end := start;
    while end + 1 < |s| && StrCmp(s[end + 1].key, s[start].key) == 0
      invariant start <= end < |s|
      invariant forall k :: start <= k <= end ==> s[k].key == s[start].key
    {
      StrCmpZero(s[end + 1].key, s[start].key);
      end := end + 1;
    }
    if end + 1 < |s| {
      StrCmpZero(s[end + 1].key, s[start].key);
    }
  }

  /** A run that starts where the tiling ends extends it. */
  lemma TilesSnoc(tasks: seq<ReducerTask>, t: ReducerTask)
    requires Tiles(tasks, t.start) && t.start <= t.end
    ensures Tiles(tasks + [t], t.end + 1)
  {
  }

  lemma RunsSnoc(s: seq<KeyVal>, tasks: seq<ReducerTask>, t: ReducerTask)
    requires Runs(s, tasks) && IsRun(s, t)
    ensures Runs(s, tasks + [t])
  {
  }

  /** `reducer_thread`: the sum of `value` over `s[start..end]`. */
  method ReduceRange(s: seq<KeyVal>, start: nat, end: nat) returns (sum: int)
    requires start <= end < |s|
    ensures sum == SumValues(s[start..end + 1])
  {
    sum := 0;
    var i := start;
    while i <= end
      invariant start <= i <= end + 1
      invariant sum == SumValues(s[start..i])
    {
      assert s[start..i + 1][..i - start] == s[start..i];
      sum := sum + s[i].value;
      i := i + 1;
    }
  }

  /** The reducers, one per task, each reporting its key and its sum. */
  method RunReducers(s: seq<KeyVal>, tasks: seq<ReducerTask>) returns (counts: seq<FinalCount>)
    requires forall i :: 0 <= i < |tasks| ==> tasks[i].start <= tasks[i].end < |s|
    ensures |counts| == |tasks|
    ensures forall i :: 0 <= i < |tasks| ==>
      counts[i] == FinalCount(tasks[i].key, SumValues(s[tasks[i].start..tasks[i].end + 1]))
  {
    counts := [];
    for i := 0 to |tasks|
      invariant |counts| == i
      invariant forall j :: 0 <= j < i ==>
        counts[j] == FinalCount(tasks[j].key, SumValues(s[tasks[j].start..tasks[j].end + 1]))
    {
      var sum := ReduceRange(s, tasks[i].start, tasks[i].end);
      counts := counts + [FinalCount(tasks[i].key, sum)];
    }
  }

  /** The sum of the reported totals. */
  function Totals(counts: seq<FinalCount>): int
  {
    if counts == [] then 0 else Totals(counts[..|counts| - 1]) + counts[|counts| - 1].total
  }

  /** Every pair of `s` lies in exactly one task's range. */
  lemma {:induction false} TilesCover(tasks: seq<ReducerTask>, n: nat, k: nat)
    requires Tiles(tasks, n) && k < n
    ensures exists i :: 0 <= i < |tasks| && tasks[i].start <= k <= tasks[i].end
    ensures forall i, j :: (0 <= i < |tasks| && 0 <= j < |tasks| &&
      tasks[i].start <= k <= tasks[i].end && tasks[j].start <= k <= tasks[j].end) ==> i == j
  {
    TilesOrdered(tasks, n);
    var i := 0;
    while tasks[i].end < k
      invariant 0 <= i < |tasks| && tasks[i].start <= k
      decreases |tasks| - i
    {
      i := i + 1;
    }
  }

  /** Later tasks start after earlier ones end. */
  lemma TilesOrdered(tasks: seq<ReducerTask>, n: nat)
    requires Tiles(tasks, n)
    ensures forall i, j :: 0 <= i < j < |tasks| ==> tasks[i].end < tasks[j].start
  {
    forall i, j | 0 <= i < j < |tasks| ensures tasks[i].end < tasks[j].start {
      var m := i + 1;
      while m < j
        invariant i < m <= j && tasks[i].end < tasks[m].start
      {
        m := m + 1;
      }
    }
  }

  /**
   * In sorted order the runs' keys strictly increase, so no key has two
   * runs: each distinct key gets exactly one task.
   */
  lemma RunKeysIncrease(s: seq<KeyVal>, tasks: seq<ReducerTask>, i: nat, j: nat)
    requires Sorted(s) && Grouping(s, tasks)
    requires i < j < |tasks|
    ensures StrCmp(s[tasks[i].start].key, s[tasks[j].start].key) < 0
  {
    TilesOrdered(tasks, |s|);
    assert IsRun(s, tasks[i]);
    var a, b, c := s[tasks[i].start].key, s[tasks[i].end + 1].key, s[tasks[j].start].key;
    assert s[tasks[i].end].key == a;
    assert tasks[i].end + 1 < |s| && a != b;
    assert KeyLe(s, tasks[i].start, tasks[i].end + 1);
    StrCmpZero(a, b);
    if tasks[i].end + 1 < tasks[j].start {
      assert KeyLe(s, tasks[i].end + 1, tasks[j].start);
    } else {
      assert b == c;
      StrCmpZero(b, c);
    }
    StrCmpStrictTransitive(a, b, c);
  }

  /**
   * In sorted order the run of a key holds every pair with that key and
   * nothing else: the pairs before it have smaller keys, the ones after it
   * greater keys.
   */
  lemma RunIsKeyClass(s: seq<KeyVal>, t: ReducerTask)
    requires Sorted(s) && IsRun(s, t)
    requires t.start > 0 ==> s[t.start - 1].key != s[t.start].key
    ensures WithKey(s, s[t.start].key) == s[t.start..t.end + 1]
  {
    var start, end, key := t.start, t.end, s[t.start].key;
    forall k | 0 <= k < start ensures s[k].key != key {
      NotBefore(s, k, start);
    }
    forall k | end < k < |s| ensures s[k].key != key {
      NotAfter(s, start, end, k);
    }
    KeyClass(s, start, end, key);
  }

  lemma NotBefore(s: seq<KeyVal>, k: nat, start: nat)
    requires Sorted(s) && k < start < |s|
    requires s[start - 1].key != s[start].key
    ensures s[k].key != s[start].key
  {
    var a, b := s[start - 1].key, s[start].key;
    if s[k].key == b {
      assert k < start - 1;
      assert KeyLe(s, k, start - 1) && KeyLe(s, start - 1, start);
      StrCmpAntisymmetric(a, b);
      StrCmpZero(a, b);
    }
  }

  lemma NotAfter(s: seq<KeyVal>, start: nat, end: nat, k: nat)
    requires Sorted(s) && start <= end < k < |s|
    requires s[end].key == s[start].key && s[end + 1].key != s[start].key
    ensures s[k].key != s[start].key
  {
    var a, b := s[start].key, s[end + 1].key;
    if s[k].key == a {
      assert end + 1 < k;
      assert KeyLe(s, start, end + 1) && KeyLe(s, end + 1, k);
      StrCmpAntisymmetric(a, b);
      StrCmpZero(a, b);
    }
  }

  /** A block of pairs with key `key`, with no pair of that key around it, is that key's selection. */
  lemma KeyClass(s: seq<KeyVal>, start: nat, end: nat, key: string)
    requires start <= end < |s|
    requires forall k :: start <= k <= end ==> s[k].key == key
    requires forall k :: 0 <= k < start ==> s[k].key != key
    requires forall k :: end < k < |s| ==> s[k].key != key
    ensures WithKey(s, key) == s[start..end + 1]
  {
    var p, m, q := s[..start], s[start..end + 1], s[end + 1..];
    Split3(s, start, end + 1);
    WithKeyAppend(p + m, q, key);
    WithKeyAppend(p, m, key);
    WithKeyNone(p, key);
    WithKeyNone(q, key);
    WithKeyAll(m, key);
  }

  /** Each task's run is exactly the pairs with its key. */
  lemma TaskIsKeyClass(s: seq<KeyVal>, tasks: seq<ReducerTask>, i: nat)
    requires Sorted(s) && Grouping(s, tasks) && i < |tasks|
    ensures WithKey(s, s[tasks[i].start].key) == s[tasks[i].start..tasks[i].end + 1]
  {
    var t := tasks[i];
    RunBoundary(s, tasks, i);
    RunIsKeyClass(s, t);
  }

  /** A task is a run, and a run other than the first starts where the key changes. */
  lemma RunBoundary(s: seq<KeyVal>, tasks: seq<ReducerTask>, i: nat)
    requires Grouping(s, tasks) && i < |tasks|
    ensures IsRun(s, tasks[i])
    ensures tasks[i].start > 0 ==> s[tasks[i].start - 1].key != s[tasks[i].start].key
  {
    if tasks[i].start > 0 {
      assert i > 0;
      var prev := tasks[i - 1];
      assert IsRun(s, prev);
      assert tasks[i].start == prev.end + 1;
      assert s[prev.end].key == s[prev.start].key;
    }
  }

  /** Each report's total is the sum of its task's run. */
  predicate Summed(s: seq<KeyVal>, tasks: seq<ReducerTask>, counts: seq<FinalCount>)
    requires forall i :: 0 <= i < |tasks| ==> tasks[i].start <= tasks[i].end < |s|
  {
    |counts| == |tasks| &&
    forall i :: 0 <= i < |tasks| ==> counts[i].total == SumValues(s[tasks[i].start..tasks[i].end + 1])
  }

  /** The totals of all runs add up to the sum over the whole sequence. */
  lemma {:induction false} TotalsCover(s: seq<KeyVal>, tasks: seq<ReducerTask>, counts: seq<FinalCount>)
    requires Tiles(tasks, |s|) && Summed(s, tasks, counts)
    ensures Totals(counts) == SumValues(s)
    decreases |tasks|
  {
    if tasks != [] {
      var n := |tasks| - 1;
      var p := tasks[n].start;
      LastRun(s, tasks, counts);
      if n > 0 {
        EarlierRuns(s, tasks, counts);
        TotalsCover(s[..p], tasks[..n], counts[..n]);
      }
      assert s == s[..p] + s[p..];
      SumValuesAppend(s[..p], s[p..]);
    }
  }

  /** The last run reaches the end of the sequence. */
  lemma LastRun(s: seq<KeyVal>, tasks: seq<ReducerTask>, counts: seq<FinalCount>)
    requires Tiles(tasks, |s|) && Summed(s, tasks, counts) && tasks != []
    ensures counts[|tasks| - 1].total == SumValues(s[tasks[|tasks| - 1].start..])
    ensures |tasks| == 1 ==> tasks[0].start == 0
  {
    var t := tasks[|tasks| - 1];
    assert s[t.start..t.end + 1] == s[t.start..];
  }

  /** The runs before the last one tile the part of the sequence before it, with the same sums. */
  lemma EarlierRuns(s: seq<KeyVal>, tasks: seq<ReducerTask>, counts: seq<FinalCount>)
    requires Tiles(tasks, |s|) && Summed(s, tasks, counts) && |tasks| > 1
    ensures Tiles(tasks[..|tasks| - 1], tasks[|tasks| - 1].start)
    ensures Summed(s[..tasks[|tasks| - 1].start], tasks[..|tasks| - 1], counts[..|tasks| - 1])
  {
    var n, p := |tasks| - 1, tasks[|tasks| - 1].start;
    TilesPrefix(tasks, |s|);
    TilesOrdered(tasks, |s|);
    forall i | 0 <= i < n
      ensures s[..p][tasks[i].start..tasks[i].end + 1] == s[tasks[i].start..tasks[i].end + 1]
    {
    }
  }

  /** Dropping the last task leaves a tiling of everything before it. */
  lemma TilesPrefix(tasks: seq<ReducerTask>, n: nat)
    requires Tiles(tasks, n) && |tasks| > 1
    ensures Tiles(tasks[..|tasks| - 1], tasks[|tasks| - 1].start)
  {
    TilesOrdered(tasks, n);
  }
}
