# Word-count MapReduce, modelled in Dafny

The program reads text and removes its punctuation. It splits the text into at
most 100 words and hands the words out, in contiguous chunks, to a number of
mapper processes chosen from the word count. Each mapper emits `(token, 1)`
for every token it reads. The parent collects the pairs into a fixed store of
200 slots and sorts them by key with a stable insertion sort under `strcmp`.
It then cuts the sorted pairs into maximal runs of equal keys and starts one
reducer per run, which sums the run's values.

This project models that pipeline with the processes, pipes, threads and
logging removed. It covers:

- the text clean-up (`is_punctuation`, `remove_punctuation`);
- the word splitter (`split_into_words`, built on `strtok`);
- the partitioner arithmetic and hand-out loop in `main`;
- the mapper's `scanf("%s")` rule;
- the bounded store (`insert_intermediate_pair`), as a class over an array;
- the in-place `insertion_sort`;
- the group scan in `main`;
- the reducer loop of `reducer_thread`.

The steps that work in place are methods over arrays, each proved against a
specification function:

- `Clean` for the punctuation filter;
- `Words` for the word table;
- `Bounded` for the store;
- `Insert` and `InsSort` for the sort.

The group scan and the reducers are loops over the sorted sequence of pairs,
proved against `Grouping` and `SumValues`.

The properties are proved as lemmas about those functions: the sort yields a
sorted permutation and is stable; every distinct key gets exactly one run; each
run holds every pair with its key. The end-to-end result is
`Pipeline.WordCount`, which returns one report per distinct token. The
reports are in strictly increasing `strcmp` order, and each total is the
number of occurrences of its token among the tokens the store kept.

A few points of the code's behaviour deserve mention:

- **Store overflow.** `insert_intermediate_pair` silently drops a pair once the
  200 slots are full, and it reports no error. The model does the same
  (`Store.Bounded`).
- **Tabs inside words.** `split_into_words` splits on the blank only, so a word
  may keep a tab. The mapper re-reads its words with `scanf("%s")`, which also
  splits at tabs. A word holding a tab therefore yields several pairs, one per
  tab-free piece. The model states the mapper this way (`Mapper.Pieces`), and
  `Pipeline.NoTabsCountsWords` shows that without tabs the counted tokens are
  exactly the words.
- **Key comparison.** `strcmp` compares the characters as unsigned bytes. The
  model compares `char` code points, which orders the same way for the ASCII
  letters, digits, space and tab that survive clean-up.

## Model

| member | source | states |
|---|---|---|
| Text.RemovePunctuation | 2211865_22i1940_22i1868.cpp:63-79 | the buffer's text before its NUL is replaced, in place, by exactly its non-punctuation characters in their original order (`Clean`); the new length is at most the old one; a NUL follows; the bytes after it are untouched |
| Text.IsPunctuation | 2211865_22i1940_22i1868.cpp:50-61 | definition: true for every character except the ASCII letters `a-z`, `A-Z`, the digits `0-9`, the blank and the tab |
| Text.Clean | 2211865_22i1940_22i1868.cpp:63-79 | definition: the characters of the text that are not punctuation, in their original order (what `remove_punctuation` leaves before the NUL) |
| Text.CleanShape | 2211865_22i1940_22i1868.cpp:50-79 | clean-up never lengthens the text, and no character of the result is punctuation |
| Text.CleanCounts | 2211865_22i1940_22i1868.cpp:50-79 | a punctuation character occurs 0 times in the result; every other character as often as in the input (letters, digits, space and tab are kept) |
| Text.CleanAppend | 2211865_22i1940_22i1868.cpp:66-77 | clean-up works character by character: cleaning a concatenation is concatenating the cleaned parts |
| Text.CleanFixed | 2211865_22i1940_22i1868.cpp:66-77 | text without punctuation is left unchanged |
| Text.CleanIdempotent | 2211865_22i1940_22i1868.cpp:63-79 | cleaning twice is cleaning once |
| Text.SplitIntoWords | 2211865_22i1940_22i1868.cpp:81-93 | fills the word table with the first MaxWords blank-separated tokens, each cut to MaxWordLen - 1 characters, and returns how many it stored (at most MaxWords); the slots from `count` on are not written |
| Text.Words | 2211865_22i1940_22i1868.cpp:81-93 | definition: the first MaxWords tokens of the text under the delimiter set {blank}, each cut by `Truncate` (the table `split_into_words` fills) |
| Text.NextToken | 2211865_22i1940_22i1868.cpp:84-90 | one `strtok` step: skips the delimiters, returns the next maximal delimiter-free run and leaves the remaining tokens to later calls, or reports that none is left |
| Text.WordsShape | 2211865_22i1940_22i1868.cpp:81-93 | at most MaxWords words; all the tokens unless the table filled up; every word non-empty, blank-free and shorter than MaxWordLen |
| Text.WordsGlue | 2211865_22i1940_22i1868.cpp:81-93 | when nothing is cut off, the words concatenate to the text with its blanks removed |
| CStrings.Truncate | 2211865_22i1940_22i1868.cpp:87-88 | the copied key is a prefix of the original: the whole of it when it is shorter than MaxWordLen, otherwise exactly its first MaxWordLen - 1 characters |
| CStrings.RunLength | 2211865_22i1940_22i1868.cpp:84-90 | the length of the leading delimiter-free run: no delimiter before it, a delimiter or the end at it |
| CStrings.Tokens | 2211865_22i1940_22i1868.cpp:84-90 | definition: the maximal non-empty delimiter-free runs of the text, in order, skipping delimiters; with {blank} this is `strtok(_, " ")`, with the C white-space set it is the mapper's `scanf("%s")` (line 151) |
| CStrings.TokensShape | 2211865_22i1940_22i1868.cpp:84-90 | every token is non-empty, delimiter-free and no longer than the text |
| CStrings.TokensChars | 2211865_22i1940_22i1868.cpp:84-90 | tokens hold only characters of the text they come from |
| CStrings.TokensGlue | 2211865_22i1940_22i1868.cpp:84-90 | the tokens concatenate to the text with all delimiters removed |
| CStrings.TokensSplit | 2211865_22i1940_22i1868.cpp:84-90 | a delimiter separates tokens: the tokens of `x d y` are those of `x` followed by those of `y` |
| CStrings.TokensSkip | 2211865_22i1940_22i1868.cpp:84-90 | a leading delimiter contributes no token |
| CStrings.TokensAtRun | 2211865_22i1940_22i1868.cpp:84-90 | a maximal delimiter-free run is the next token |
| CStrings.TokensOfWord | 2211865_22i1940_22i1868.cpp:151-155 | a non-empty delimiter-free string is a single token |
| CStrings.RunLengthExact | 2211865_22i1940_22i1868.cpp:84-90 | the leading run is exactly `k` long when the first `k` characters are not delimiters and the next is |
| CStrings.StripRun | 2211865_22i1940_22i1868.cpp:84-90 | removing the delimiters leaves a delimiter-free prefix intact |
| CStrings.StrCmp | 2211865_22i1940_22i1868.cpp:115 | the sign of `strcmp`: -1, 0 or 1 |
| CStrings.StrCmpZero | 2211865_22i1940_22i1868.cpp:365-366 | `strcmp` is 0 exactly when the two keys are equal, in both directions |
| CStrings.StrCmpAntisymmetric | 2211865_22i1940_22i1868.cpp:115 | swapping the operands negates the comparison |
| CStrings.StrCmpTransitive | 2211865_22i1940_22i1868.cpp:115 | the order `strcmp(a, b) <= 0` is transitive |
| CStrings.StrCmpStrictTransitive | 2211865_22i1940_22i1868.cpp:115 | `a < b <= c` gives `a < c` |
| Partitioner.NumMappers | 2211865_22i1940_22i1868.cpp:251-253 | at least one mapper; for N > 0 words exactly the least M with N <= 20 M, that is ceil(N / 20) |
| Partitioner.ChunkSize | 2211865_22i1940_22i1868.cpp:287 | definition: `current_chunk` of mapper i, `n / m` plus one when `i < n % m` |
| Partitioner.ChunkStart | 2211865_22i1940_22i1868.cpp:284-315 | definition: `word_index` when mapper i starts, the sum of the chunk sizes of mappers 0 to i - 1 |
| Partitioner.ChunkStartClosed | 2211865_22i1940_22i1868.cpp:284-315 | `word_index` before mapper i is i chunk sizes plus one extra word for each of the first min(i, N mod M) mappers |
| Partitioner.ChunkStartBounds | 2211865_22i1940_22i1868.cpp:284-315 | `word_index` never passes N, and after the last mapper it is exactly N: the chunk sizes sum to N |
| Partitioner.ChunksBalanced | 2211865_22i1940_22i1868.cpp:258-259 | for any two mappers `i <= j`: chunk sizes differ by at most one and never grow with the mapper index, so the larger chunks come first; with words to hand out, mappers `i` and `j` each get between 1 and 20 (with `i = j` this covers a single mapper) |
| Partitioner.FortyFiveWords | 2211865_22i1940_22i1868.cpp:251-259 | 45 words go to 3 mappers, 15 each |
| Partitioner.Partition | 2211865_22i1940_22i1868.cpp:284-317 | NumMappers(N) chunks; chunk i has `chunk_size` words, plus one when i < `remainder`; the chunks concatenate to the word list, so every word goes to exactly one mapper, in order |
| Mapper.Stream | 2211865_22i1940_22i1868.cpp:313 | definition: what the parent writes into a mapper's input pipe, each word of the chunk followed by a newline |
| Mapper.Pieces | 2211865_22i1940_22i1868.cpp:151 | definition: the white-space separated pieces of each word, word after word (the mapper's `scanf("%s")` re-split of the words it is sent) |
| Mapper.MapChunk | 2211865_22i1940_22i1868.cpp:143-160 | definition: the pairs `(p, 1)` for every token `p` that `scanf("%s")` reads from the chunk's stream, in order |
| Mapper.MapAll | 2211865_22i1940_22i1868.cpp:322-340 | definition: the mappers' output in collection order, mapper 0's pairs first |
| Mapper.MapChunkPieces | 2211865_22i1940_22i1868.cpp:151-155 | a mapper sent a chunk emits `(p, 1)` for each white-space separated piece `p` of each word, in order; the newline after a word never joins two words |
| Mapper.TokensOfStream | 2211865_22i1940_22i1868.cpp:313 | scanning the `"%s\n"` stream of a chunk gives back the pieces of its words |
| Mapper.PiecesAppend | 2211865_22i1940_22i1868.cpp:151-155 | the pieces of two word lists are the pieces of each, in order |
| Mapper.PiecesOfPlainWords | 2211865_22i1940_22i1868.cpp:151-155 | words without white space are their own pieces: the mapper is then `w -> (w, 1)` |
| Mapper.PiecesFit | 2211865_22i1940_22i1868.cpp:150-151 | pieces of words shorter than MaxWordLen are shorter than MaxWordLen, so they fit the mapper's buffer |
| Mapper.MapAllPieces | 2211865_22i1940_22i1868.cpp:322-340 | collecting the mappers' output mapper by mapper gives `(p, 1)` for every piece of the whole word list, in order |
| Store.Stored | 2211865_22i1940_22i1868.cpp:100-102 | a stored pair keeps its value and the `strncpy`-truncated key, which is shorter than MaxWordLen; the pair is unchanged when its key already fits |
| Store.Bounded | 2211865_22i1940_22i1868.cpp:98 | the store keeps a prefix of what it is offered: all of it when it fits, otherwise exactly its first MaxKeyValPairs items |
| Store.BoundedAppend | 2211865_22i1940_22i1868.cpp:98-104 | offering pairs in two batches keeps the same as offering them at once: once full, every later pair is ignored |
| Store.StoredAllFit | 2211865_22i1940_22i1868.cpp:100-101 | storing pairs whose keys already fit changes none of them |
| Store.StoredAllAppend | 2211865_22i1940_22i1868.cpp:334-338 | storing works pair by pair over a concatenation |
| Store.KeysFitSorted | 2211865_22i1940_22i1868.cpp:133 | sorting keeps every key within the key buffer |
| Store.IntermediateStore.Contents | 2211865_22i1940_22i1868.cpp:98 | the store never holds more than MaxKeyValPairs pairs, and every key fits its buffer |
| Store.IntermediateStore.constructor | 2211865_22i1940_22i1868.cpp:185-186 | a new store is empty |
| Store.IntermediateStore.Insert | 2211865_22i1940_22i1868.cpp:95-106 | with a free slot: the truncated key and the value go into slot `count`, and `count` grows by one; when full: nothing changes; the earlier slots never change |
| Store.IntermediateStore.Collect | 2211865_22i1940_22i1868.cpp:334-338 | after reading one mapper's pairs, the store holds the first MaxKeyValPairs of everything offered so far |
| Store.IntermediateStore.Shuffle | 2211865_22i1940_22i1868.cpp:125-133 | the stored pairs are replaced by their insertion sort, in place; the free slots are left alone |
| Shuffle.InsertionSort | 2211865_22i1940_22i1868.cpp:109-122 | the first n slots become `InsSort` of their old contents; the rest of the array is untouched |
| Shuffle.InsertAt | 2211865_22i1940_22i1868.cpp:113-120 | one outer pass: slot i's pair lands after the last key not greater than its own, and the greater keys shift one place right |
| Shuffle.Insert | 2211865_22i1940_22i1868.cpp:113-120 | definition: one outer pass, the pair moves left past every pair with a strictly greater key and stops at the first that is not |
| Shuffle.InsSort | 2211865_22i1940_22i1868.cpp:109-122 | definition: `insertion_sort` as a function, inserting the pairs one by one from left to right |
| Shuffle.InsertLands | 2211865_22i1940_22i1868.cpp:115-120 | the pair stops right after the first key, scanning leftwards, that is not strictly greater than its own |
| Shuffle.InsertPermutes | 2211865_22i1940_22i1868.cpp:113-120 | an outer pass adds the pair and loses nothing |
| Shuffle.InsertStable | 2211865_22i1940_22i1868.cpp:115 | an outer pass puts the pair after every pair with an equal key |
| Shuffle.InsertSorted | 2211865_22i1940_22i1868.cpp:113-120 | an outer pass over a sorted prefix leaves it sorted |
| Shuffle.InsSortPermutes | 2211865_22i1940_22i1868.cpp:109-122 | the sort's result is a permutation of its input |
| Shuffle.InsSortSorted | 2211865_22i1940_22i1868.cpp:109-122 | the sort's result is non-decreasing under `strcmp` |
| Shuffle.InsSortStable | 2211865_22i1940_22i1868.cpp:113-120 | the sort is stable: for every key, the pairs with that key keep their relative order |
| Shuffle.InsSortOfSorted | 2211865_22i1940_22i1868.cpp:113-120 | an already sorted input is left unchanged |
| Shuffle.SortedSnoc | 2211865_22i1940_22i1868.cpp:120 | appending a pair no smaller than every key keeps a sequence sorted |
| Shuffle.SortedInit | 2211865_22i1940_22i1868.cpp:111 | dropping the last pair keeps a sequence sorted |
| Reduce.GroupScan | 2211865_22i1940_22i1868.cpp:361-390 | the tasks' ranges are non-empty and tile `[0, count)` in order; each is a maximal run of equal keys carrying its first key, truncated |
| Reduce.RunEnd | 2211865_22i1940_22i1868.cpp:364-369 | `end` stops at the last index of the run of keys equal to the key at `start` |
| Reduce.ReduceRange | 2211865_22i1940_22i1868.cpp:168-172 | the reducer's sum is the sum of the values over `start..end`, both ends included |
| Reduce.RunReducers | 2211865_22i1940_22i1868.cpp:383-388 | one report per task, carrying the task's key and the sum over its range |
| Reduce.TilesSnoc | 2211865_22i1940_22i1868.cpp:389 | a run that starts where the tiling ends extends it |
| Reduce.RunsSnoc | 2211865_22i1940_22i1868.cpp:377-380 | adding a maximal run keeps every task a maximal run |
| Reduce.TilesCover | 2211865_22i1940_22i1868.cpp:361-390 | every index of the store lies in exactly one task's range |
| Reduce.TilesOrdered | 2211865_22i1940_22i1868.cpp:361-390 | later tasks start after earlier ones end |
| Reduce.RunKeysIncrease | 2211865_22i1940_22i1868.cpp:361-390 | on sorted pairs, the runs' keys strictly increase, so no key gets two reducers |
| Reduce.RunIsKeyClass | 2211865_22i1940_22i1868.cpp:361-390 | on sorted pairs, a run that starts at a key change holds every pair with its key and nothing else |
| Reduce.TaskIsKeyClass | 2211865_22i1940_22i1868.cpp:361-390 | on sorted pairs, each task's range is exactly the pairs with its key |
| Reduce.RunBoundary | 2211865_22i1940_22i1868.cpp:365-366 | each task is a run, and a task other than the first starts where the key changes |
| Reduce.KeyClass | 2211865_22i1940_22i1868.cpp:361-390 | a block of one key with no pair of that key around it is that key's whole selection |
| Reduce.NotBefore | 2211865_22i1940_22i1868.cpp:361-390 | on sorted pairs, no key before a key change equals the key after it |
| Reduce.NotAfter | 2211865_22i1940_22i1868.cpp:361-390 | on sorted pairs, no key after a run's end equals the run's key |
| Reduce.TotalsCover | 2211865_22i1940_22i1868.cpp:168-172 | the reducers' totals add up to the sum of all stored values |
| Reduce.LastRun | 2211865_22i1940_22i1868.cpp:362 | the last run reaches the end of the store |
| Reduce.EarlierRuns | 2211865_22i1940_22i1868.cpp:361-390 | the runs before the last tile the store up to it, with the same sums |
| Reduce.TilesPrefix | 2211865_22i1940_22i1868.cpp:361-390 | dropping the last task leaves a tiling of everything before it |
| KeyValues.Ones | 2211865_22i1940_22i1868.cpp:155 | definition: the pair `(w, 1)` for every token `w`, in order (the mapper's `printf("%s %d\n", buffer, 1)`) |
| KeyValues.WithKeyAppend | 2211865_22i1940_22i1868.cpp:361-390 | selecting one key's pairs distributes over concatenation |
| KeyValues.SumValuesAppend | 2211865_22i1940_22i1868.cpp:168-172 | summing distributes over concatenation |
| KeyValues.WithKeyAll | 2211865_22i1940_22i1868.cpp:361-390 | a block of one key is its own selection |
| KeyValues.WithKeyNone | 2211865_22i1940_22i1868.cpp:361-390 | a block without the key selects nothing |
| KeyValues.WithKeyMultiset | 2211865_22i1940_22i1868.cpp:361-390 | the selection of a key holds exactly the pairs with that key, with their multiplicities |
| KeyValues.CountOnes | 2211865_22i1940_22i1868.cpp:155 | summing the values of `(w, 1)` pairs with key k counts the occurrences of k |
| KeyValues.OnesAppend | 2211865_22i1940_22i1868.cpp:155 | mapping tokens to `(w, 1)` distributes over concatenation |
| Pipeline.CPrefix | 2211865_22i1940_22i1868.cpp:220-222 | the copied input is a prefix of the input, at most 4095 characters, without NUL; it stops early only at a NUL |
| Pipeline.Counted | 2211865_22i1940_22i1868.cpp:214-340 | definition: the tokens that get counted, the mappers' pieces of the word table in order, as far as the store has room (`Bounded`) |
| Pipeline.WordCount | 2211865_22i1940_22i1868.cpp:214-390 | empty input fails with NoInput and input without words with NoWords, both as if-and-only-if; otherwise the reports are one per distinct counted token, in strictly increasing `strcmp` order, with totals equal to the occurrences and summing to the number of counted tokens |
| Pipeline.ExtractWords | 2211865_22i1940_22i1868.cpp:220-232 | the word table is the words of the cleaned copy of the input |
| Pipeline.MapPhase | 2211865_22i1940_22i1868.cpp:284-340 | after partitioning, mapping and collection the fresh store holds `(p, 1)` for the first MaxKeyValPairs pieces of the words, in order |
| Pipeline.CollectedPieces | 2211865_22i1940_22i1868.cpp:322-340 | collecting every mapper's output keeps the first MaxKeyValPairs `(p, 1)` pairs of the word list's pieces |
| Pipeline.WordCountCorrect | 2211865_22i1940_22i1868.cpp:347-390 | sorting, scanning and reducing the `(p, 1)` pairs of the kept tokens reports exactly how often each token occurs |
| Pipeline.OneOf | 2211865_22i1940_22i1868.cpp:155 | every pair after the shuffle is `(p, 1)` for a kept token `p` |
| Pipeline.PositionOf | 2211865_22i1940_22i1868.cpp:133 | every kept token has a pair after the shuffle |
| Pipeline.SumOfOnes | 2211865_22i1940_22i1868.cpp:168-172 | pairs that each carry 1 sum to their number |
| Pipeline.NoTabsCountsWords | 2211865_22i1940_22i1868.cpp:81-93 | when the input holds no tab, the counted tokens are exactly the words of the word table |
| Pipeline.PlainWord | 2211865_22i1940_22i1868.cpp:50-93 | a word of tab-free text holds no white space |
| Pipeline.WordChar | 2211865_22i1940_22i1868.cpp:50-61 | a non-blank character left by clean-up of tab-free text is an ASCII letter or digit, and so not white space |

## Left out

- Processes and pipes: `fork`, `pipe`, `dup2`, `dprintf`, `fdopen`/`fscanf`, `close` and `wait` are not modelled. The text round trip through a pipe is a function from a chunk to the pairs read back (`Mapper.MapChunk`). A failing `pipe`, `fork`, `fdopen`, `malloc` or `pthread_create` is not modelled either. The model assumes a mapper's output pipe carries only the mapper's own `printf` lines. A forked child may inherit log text still buffered in the parent's `cout` (stream synchronisation is off, line 196), and `exit` would flush that text into the pipe after the pairs, where the parent's `fscanf("%s %d")` loop reads it; this is not modelled.
- Concurrency: the mutex, the semaphore (posted, never waited on) and the reducer threads are not modelled. The reducers read disjoint ranges, so they run one after another here, and `Pipeline.WordCount` returns their reports in task order. The order in which concurrent threads would print them is not modelled.
- Reading standard input: the `getline` loop that builds `input_all`, each line followed by a blank, is not modelled. `Pipeline.WordCount` takes `input_all` as its parameter, and a line longer than the 1024-byte buffer is not modelled.
- Output and timing: all `cout`/`cerr` logging and the `usleep` delays are not modelled.
- `strtok` writing NULs into `input_copy`: the splitter reads an immutable string, and the second 4096-byte copy (`input_copy`) is the same text.
- Bytes: each `char` of the input stands for one byte of `input_all`. The 4095 limit of the copy (`Pipeline.CPrefix`) counts bytes, so for multi-byte UTF-8 text a decoded string would be cut at a different place; decoding is not modelled.
- C strings: keys are `seq<char>` rather than NUL-terminated buffers. The `MaxWordLen - 1` truncation is kept (`CStrings.Truncate`).
- CStrings.StrCmp: compares `char` code points, not unsigned bytes, and returns only the sign. This is the same order for the characters that survive clean-up.
- Reduce.ReduceRange: the C `int` sum may overflow, but with at most 200 pairs of value 1 it cannot. The model's sum is unbounded.
- The scanf buffer: `scanf("%s")` into a 50-byte buffer could overflow for a longer token. Every token a mapper reads is shorter (`Mapper.PiecesFit`), so no overflow is modelled.
