/**
 * `main` with the processes, pipes, threads and logging taken out: the text
 * read from standard input goes through clean-up, word splitting,
 * partitioning, mapping, collection into the intermediate store, the
 * shuffle, the group scan and the reducers, in that order.
 */
module Pipeline {
  import opened Config
  import opened CStrings
  import opened KeyValues
  import opened Text
  import opened Partitioner
  import opened Mapper
  import opened Shuffle
  import opened Store
  import opened Reduce

  /** `sizeof(input_str)`. */
  const InputSize := 4096

  /** The two ways `main` gives up before any mapper starts. */
  datatype Error = NoInput | NoWords

  datatype Result<T> = Ok(value: T) | Err(error: Error)

  /**
   * What `strncpy(input_str, input_all.c_str(), InputSize - 1)` leaves in
   * `input_str` before its terminator: the text up to its first NUL, at most
   * `limit` characters of it.
   */
  function CPrefix(s: string, limit: nat): (r: string)
    ensures |r| <= limit && r <= s
    ensures forall i :: 0 <= i < |r| ==> r[i] != '\0'
    ensures |r| < limit && |r| < |s| ==> s[|r|] == '\0'
  {
    if limit == 0 || s == [] || s[0] == '\0' then []
    else
      var r := [s[0]] + CPrefix(s[1..], limit - 1);
      assert forall i :: 0 < i < |r| ==> r[i] == CPrefix(s[1..], limit - 1)[i - 1];
      r
  }

  /** The text `split_into_words` gets: the copied input with its punctuation removed. */
  function CleanText(inputAll: string): string
  {
    Clean(CPrefix(inputAll, InputSize - 1))
  }

  /** The word table `main` builds from the input. */
  function WordsOf(inputAll: string): seq<string>
  {
    Words(CleanText(inputAll))
  }

  /**
   * The tokens that get counted: the mappers' tokens of the word table in
   * order (each word, split again at tabs), as far as the store has room.
   */
  function Counted(inputAll: string): seq<string>
  {
    Bounded(Pieces(WordsOf(inputAll)))
  }

  /**
   * The reducers' reports are a correct word count of `kept`: one report per
   * distinct token in strictly increasing `strcmp` order, each total the
   * number of occurrences, and the totals adding up to the number of tokens.
   */
  predicate Reported(counts: seq<FinalCount>, kept: seq<string>)
  {
    (forall i, j :: 0 <= i < j < |counts| ==> StrCmp(counts[i].key, counts[j].key) < 0) &&
    (forall i :: 0 <= i < |counts| ==> counts[i].key in kept && counts[i].total == multiset(kept)[counts[i].key]) &&
    (forall w :: w in kept ==> exists i :: 0 <= i < |counts| && counts[i].key == w) &&
    Totals(counts) == |kept|
  }

  /**
   * The whole run, given the text `main` accumulates from standard input
   * (each line followed by a blank).
   */
  method WordCount(inputAll: string) returns (r: Result<seq<FinalCount>>)
    ensures r == Err(NoInput) <==> inputAll == []
    ensures r == Err(NoWords) <==> inputAll != [] && WordsOf(inputAll) == []
    ensures r.Ok? ==> Reported(r.value, Counted(inputAll))
  {
    if inputAll == [] {
      return Err(NoInput);
    }
    var ws := ExtractWords(inputAll);
    if |ws| == 0 {
      return Err(NoWords);
    }
    WordsShape(CleanText(inputAll));
    var store := MapPhase(ws);
    store.Shuffle();
    var sorted := store.Contents();
    var tasks := GroupScan(sorted);
    var counts := RunReducers(sorted, tasks);
    WordCountCorrect(Counted(inputAll), sorted, tasks, counts);
    r := Ok(counts);
  }

  /**
   * The front of `main`: copy the input into `input_str`, remove its
   * punctuation in place, and split it into the word table.
   */
  method ExtractWords(inputAll: string) returns (ws: seq<string>)
    ensures ws == WordsOf(inputAll)
  {
    var text := CPrefix(inputAll, InputSize - 1);
    var line := new char[InputSize](i requires 0 <= i => if i < |text| then text[i] else '\0');
    assert line[..|text|] == text;
    var len := RemovePunctuation(line, |text|);
    var cleaned := line[..len];
    var words := new string[MaxWords];
    var count := SplitIntoWords(cleaned, words);
    ws := words[..count];
  }

  /**
   * The map phase: partition the words, let each mapper turn its chunk into
   * pairs, and collect every mapper's pairs into a fresh store, mapper by
   * mapper.
   */
  method MapPhase(ws: seq<string>) returns (store: IntermediateStore)
    requires forall i :: 0 <= i < |ws| ==> |ws[i]| < MaxWordLen
    ensures fresh(store) && fresh(store.pairs) && store.Valid()
    ensures store.Contents() == Ones(Bounded(Pieces(ws)))
  {
    var chunks := Partition(ws);
    store := new IntermediateStore();
    for i := 0 to |chunks|
      invariant fresh(store) && fresh(store.pairs) && store.Valid()
      invariant store.Contents() == Bounded(StoredAll(MapAll(chunks[..i])))
    {
      store.Collect(MapChunk(chunks[i]));
      assert chunks[..i + 1][..i] == chunks[..i];
      StoredAllAppend(MapAll(chunks[..i]), MapChunk(chunks[i]));
      BoundedAppend(StoredAll(MapAll(chunks[..i])), StoredAll(MapChunk(chunks[i])));
    }
    assert chunks[..|chunks|] == chunks;
    CollectedPieces(ws, chunks);
  }

  /**
   * After collection the store holds `(p, 1)` for the first MaxKeyValPairs
   * tokens `p` the mappers emitted, in the order the chunks were handed out.
   */
  lemma CollectedPieces(ws: seq<string>, chunks: seq<seq<string>>)
    requires Concat(chunks) == ws
    requires forall i :: 0 <= i < |ws| ==> |ws[i]| < MaxWordLen
    ensures Bounded(StoredAll(MapAll(chunks))) == Ones(Bounded(Pieces(ws)))
  {
    MapAllPieces(chunks);
    PiecesFit(ws);
    StoredAllFit(Ones(Pieces(ws)));
  }

  /**
   * The end-to-end property: sorting the pairs `(p, 1)` of `kept`, cutting the
   * result into runs and summing each run reports exactly how often each
   * token occurs in `kept`.
   */
  lemma WordCountCorrect(kept: seq<string>, sorted: seq<KeyVal>, tasks: seq<ReducerTask>, counts: seq<FinalCount>)
    requires sorted == InsSort(Ones(kept)) && KeysFit(sorted)
    requires Grouping(sorted, tasks) && |counts| == |tasks|
    requires forall i :: 0 <= i < |tasks| ==>
      counts[i] == FinalCount(tasks[i].key, SumValues(sorted[tasks[i].start..tasks[i].end + 1]))
    ensures Reported(counts, kept)
  {
    InsSortSorted(Ones(kept));
    InsSortPermutes(Ones(kept));
    forall i | 0 <= i < |tasks| ensures counts[i].key == sorted[tasks[i].start].key {
      assert IsRun(sorted, tasks[i]);
    }
    forall i, j | 0 <= i < j < |counts| ensures StrCmp(counts[i].key, counts[j].key) < 0 {
      RunKeysIncrease(sorted, tasks, i, j);
    }
    forall i | 0 <= i < |counts|
      ensures counts[i].key in kept && counts[i].total == multiset(kept)[counts[i].key]
    {
      var key := counts[i].key;
      assert IsRun(sorted, tasks[i]);
      TaskIsKeyClass(sorted, tasks, i);
      InsSortStable(Ones(kept), key);
      CountOnes(kept, key);
      OneOf(kept, sorted, tasks[i].start);
    }
    forall w | w in kept ensures exists i :: 0 <= i < |counts| && counts[i].key == w {
      var m := PositionOf(kept, sorted, w);
      TilesCover(tasks, |sorted|, m);
      var i :| 0 <= i < |tasks| && tasks[i].start <= m <= tasks[i].end;
      assert IsRun(sorted, tasks[i]);
    }
    TotalsCover(sorted, tasks, counts);
    forall m | 0 <= m < |sorted| ensures sorted[m].value == 1 {
      OneOf(kept, sorted, m);
    }
    SumOfOnes(sorted);
  }

  /** Every pair of the sorted store is `(p, 1)` for some token `p` of `kept`. */
  lemma OneOf(kept: seq<string>, sorted: seq<KeyVal>, m: nat)
    requires multiset(sorted) == multiset(Ones(kept)) && m < |sorted|
    ensures sorted[m].key in kept && sorted[m].value == 1
  {
    assert sorted[m] in multiset(Ones(kept));
    var k :| 0 <= k < |kept| && Ones(kept)[k] == sorted[m];
  }

  /** Every token of `kept` has a pair in the sorted store. */
  lemma PositionOf(kept: seq<string>, sorted: seq<KeyVal>, w: string) returns (m: nat)
    requires multiset(sorted) == multiset(Ones(kept)) && w in kept
    ensures m < |sorted| && sorted[m].key == w
  {
    var k :| 0 <= k < |kept| && kept[k] == w;
    assert Ones(kept)[k] in multiset(sorted);
    m :| 0 <= m < |sorted| && sorted[m] == Ones(kept)[k];
  }

  /** Pairs that each carry the value 1 sum to their number. */
  lemma {:induction false} SumOfOnes(s: seq<KeyVal>)
    requires forall m :: 0 <= m < |s| ==> s[m].value == 1
    ensures SumValues(s) == |s|
  {
    if s != [] {
      SumOfOnes(s[..|s| - 1]);
    }
  }

  /** Without tabs in the input, every word is a single token and nothing overflows the store. */
  lemma NoTabsCountsWords(inputAll: string)
    requires '\t' !in CPrefix(inputAll, InputSize - 1)
    ensures Counted(inputAll) == WordsOf(inputAll)
  {
    var ws := WordsOf(inputAll);
    WordsShape(CleanText(inputAll));
    forall i | 0 <= i < |ws| ensures ws[i] != [] && Free(ws[i], Whitespace) {
      PlainWord(CPrefix(inputAll, InputSize - 1), i);
    }
    PiecesOfPlainWords(ws);
  }

  /** A word of tab-free text holds letters and digits only. */
  lemma PlainWord(text: string, i: nat)
    requires '\t' !in text && i < |Words(Clean(text))|
    ensures Free(Words(Clean(text))[i], Whitespace)
  {
    var s := Clean(text);
    var ts := Tokens(s, Blank);
    var w := Words(s)[i];
    TokensChars(s, Blank);
    TokensShape(s, Blank);
    assert ts[i] in ts;
    forall k | 0 <= k < |w| ensures w[k] !in Whitespace {
      assert w[k] == ts[i][k];
      WordChar(text, w[k]);
    }
  }

  /** A character that survives clean-up of tab-free text and is not a blank is a letter or a digit. */
  lemma WordChar(text: string, c: char)
    requires '\t' !in text && c in Clean(text) && c != ' '
    ensures ('a' <= c <= 'z') || ('A' <= c <= 'Z') || ('0' <= c <= '9')
    ensures c !in Whitespace
  {
    CleanShape(text);
    CleanCounts(text, c);
    assert c in multiset(Clean(text));
    var p :| 0 <= p < |Clean(text)| && Clean(text)[p] == c;
  }
}
