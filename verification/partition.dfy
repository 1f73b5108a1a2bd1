/**
 * The partitioner in `main`: how many mappers to start for N words, how many
 * words each gets, and the contiguous hand-out driven by `word_index`.
 */
module Partitioner {
  import opened Config

  /** `num_mappers`: one mapper per started block of WordsPerMapper words, at least one. */
  function NumMappers(n: nat): (m: nat)
    ensures m >= 1
    ensures n == 0 ==> m == 1
    ensures n > 0 ==> (m - 1) * WordsPerMapper < n <= m * WordsPerMapper
  {
    var m := (n + WordsPerMapper - 1) / WordsPerMapper;
    if m < 1 then 1 else m
  }

  /** `current_chunk` for mapper `i`: `chunk_size`, plus one for the first `remainder` mappers. */
  function ChunkSize(n: nat, m: nat, i: nat): nat
    requires m >= 1
  {
    n / m + (if i < n % m then 1 else 0)
  }

  /** `word_index` when mapper `i` is started: the sizes of the chunks before it. */
  function ChunkStart(n: nat, m: nat, i: nat): nat
    requires m >= 1
  {
    if i == 0 then 0 else ChunkStart(n, m, i - 1) + ChunkSize(n, m, i - 1)
  }

  /** Closed form of `word_index`: `i` full chunks plus one extra word for each of the first `min(i, n % m)`. */
  lemma {:induction false} ChunkStartClosed(n: nat, m: nat, i: nat)
    requires m >= 1
    ensures ChunkStart(n, m, i) == i * (n / m) + (if i < n % m then i else n % m)
  {
    if i > 0 {
      ChunkStartClosed(n, m, i - 1);
    }
  }

  /** The chunks stay inside the word list, and together they cover it exactly. */
  lemma ChunkStartBounds(n: nat, m: nat, i: nat)
    requires m >= 1 && i <= m
    ensures ChunkStart(n, m, i) <= n
    ensures i == m ==> ChunkStart(n, m, i) == n
  {
    ChunkStartClosed(n, m, i);
    DivMod(n, m);
    MulMonotone(i, m, n / m);
  }

  lemma DivMod(n: nat, m: nat)
    requires m >= 1
    ensures n == m * (n / m) + n % m && 0 <= n % m < m
  {
  }

  lemma MulMonotone(a: nat, b: nat, q: nat)
    requires a <= b
    ensures a * q <= b * q
  {
  }

  /**
   * Chunk sizes are balanced: any two differ by at most one, the larger ones
   * come first, and with words to hand out every mapper gets between one and
   * WordsPerMapper of them.
   */
  lemma ChunksBalanced(n: nat, i: nat, j: nat)
    requires i <= j < NumMappers(n)
    ensures ChunkSize(n, NumMappers(n), j) <= ChunkSize(n, NumMappers(n), i) <= ChunkSize(n, NumMappers(n), j) + 1
    ensures n > 0 ==> 1 <= ChunkSize(n, NumMappers(n), i) <= WordsPerMapper
    ensures n > 0 ==> 1 <= ChunkSize(n, NumMappers(n), j) <= WordsPerMapper
  {
    var m := NumMappers(n);
    var q, r := n / m, n % m;
    assert n == m * q + r && 0 <= r < m;
    if n > 0 {
      assert m <= n;
      assert q >= 1;
      if q > WordsPerMapper {
        MulMonotone(WordsPerMapper + 1, q, m);
        assert false;
      }
      assert q == WordsPerMapper ==> r == 0;
    }
  }

  /** Forty-five words go to three mappers, fifteen each. */
  lemma FortyFiveWords()
    ensures NumMappers(45) == 3
    ensures ChunkSize(45, 3, 0) == ChunkSize(45, 3, 1) == ChunkSize(45, 3, 2) == 15
  {
  }

  /**
   * The hand-out loop in `main`: mapper `i` receives the `current_chunk` words
   * starting at `word_index`, which then advances past them.
   */
  method Partition(words: seq<string>) returns (chunks: seq<seq<string>>)
    ensures |chunks| == NumMappers(|words|)
    ensures forall i :: 0 <= i < |chunks| ==> |chunks[i]| == ChunkSize(|words|, |chunks|, i)
    ensures Concat(chunks) == words
  {
    var n := |words|;
    var numMappers := NumMappers(n);
    var chunkSize := n / numMappers;
    var remainder := n % numMappers;
    var wordIndex := 0;
    chunks := [];
    for i := 0 to numMappers
      invariant |chunks| == i
      invariant wordIndex == ChunkStart(n, numMappers, i) <= n
      invariant Concat(chunks) == words[..wordIndex]
      invariant forall k :: 0 <= k < i ==> |chunks[k]| == ChunkSize(n, numMappers, k)
    {
      var currentChunk := chunkSize + (if i < remainder then 1 else 0);
      ChunkStartBounds(n, numMappers, i + 1);
      ConcatSnoc(chunks, words[wordIndex..wordIndex + currentChunk]);
      assert words[..wordIndex + currentChunk] == words[..wordIndex] + words[wordIndex..wordIndex + currentChunk];
      chunks := chunks + [words[wordIndex..wordIndex + currentChunk]];
      wordIndex := wordIndex + currentChunk;
    }
    ChunkStartBounds(n, numMappers, numMappers);
    assert words[..n] == words;
  }
}
