/**
 * Input clean-up and tokenising: `is_punctuation`, `remove_punctuation`
 * (an in-place compaction of a NUL-terminated buffer) and
 * `split_into_words` (a `strtok` loop filling a fixed table of words).
 */
module Text {
  import opened Config
  import opened CStrings

  /** `split_into_words` splits on the blank only; tabs stay inside words. */
  const Blank: set<char> := {' '}

  /** Everything except ASCII letters, digits, space and tab counts as punctuation. */
  predicate IsPunctuation(c: char)
  {
    !(('a' <= c <= 'z') || ('A' <= c <= 'Z') || ('0' <= c <= '9') || c == ' ' || c == '\t')
  }

  /** The characters of `s` that are not punctuation, in their original order. */
  function Clean(s: string): string
  {
    if s == [] then []
    else Clean(s[..|s| - 1]) + (if IsPunctuation(s[|s| - 1]) then [] else [s[|s| - 1]])
  }

  /** Clean-up only removes, never adds, and leaves no punctuation behind. */
  lemma {:induction false} CleanShape(s: string)
    ensures |Clean(s)| <= |s|
    ensures forall i :: 0 <= i < |Clean(s)| ==> !IsPunctuation(Clean(s)[i])
  {
    if s != [] {
      CleanShape(s[..|s| - 1]);
    }
  }

  /** Every kept character survives as often as it occurs; every punctuation character vanishes. */
  lemma {:induction false} CleanCounts(s: string, c: char)
    ensures multiset(Clean(s))[c] == if IsPunctuation(c) then 0 else multiset(s)[c]
  {
    if s != [] {
      var init, last := s[..|s| - 1], s[|s| - 1];
      InitLast(s);
      CleanCounts(init, c);
    }
  }

  /** Clean-up works character by character: it distributes over concatenation, so order is kept. */
  lemma {:induction false} CleanAppend(a: string, b: string)
    ensures Clean(a + b) == Clean(a) + Clean(b)
    decreases |b|
  {
    if b == [] {
      assert a + b == a;
    } else {
      var init, last := b[..|b| - 1], b[|b| - 1];
      assert (a + b)[..|a + b| - 1] == a + init;
      CleanAppend(a, init);
    }
  }

  /** Text without punctuation is left as it is; hence clean-up is idempotent. */
  lemma {:induction false} CleanFixed(s: string)
    requires forall i :: 0 <= i < |s| ==> !IsPunctuation(s[i])
    ensures Clean(s) == s
  {
    if s != [] {
      CleanFixed(s[..|s| - 1]);
    }
  }

  lemma CleanIdempotent(s: string)
    ensures Clean(Clean(s)) == Clean(s)
  {
    CleanShape(s);
    CleanFixed(Clean(s));
  }

  /**
   * `remove_punctuation`: compacts the NUL-terminated text in `line` in place,
   * read index `i`, write index `j`. `n` is the position of the terminating
   * NUL (the code finds it by scanning). Returns the new length.
   */
  method RemovePunctuation(line: array<char>, ghost n: nat) returns (len: nat)
    requires n < line.Length && line[n] == '\0'
    requires forall k :: 0 <= k < n ==> line[k] != '\0'
    modifies line
    ensures len <= n
    ensures line[..len] == Clean(old(line[..n]))
    ensures line[len] == '\0'
    ensures forall k :: len < k < line.Length ==> line[k] == old(line[k])
  {
    var i, j := 0, 0;
    while line[i] != '\0'
      invariant 0 <= j <= i <= n
      invariant line[..j] == Clean(old(line[..i]))
      invariant forall k :: j <= k < line.Length ==> line[k] == old(line[k])
      decreases n - i
    {
      assert old(line[..i + 1])[..i] == old(line[..i]);
      if !IsPunctuation(line[i]) {
        line[j] := line[i];
        j := j + 1;
      }
      i := i + 1;
    }
    line[j] := '\0';
    len := j;
  }

  /** Each string cut to MaxWordLen - 1 characters. */
  function TruncateAll(ts: seq<string>): (r: seq<string>)
    ensures |r| == |ts|
  {
    seq(|ts|, i requires 0 <= i < |ts| => Truncate(ts[i]))
  }

  /**
   * What `split_into_words` leaves in its table: the first MaxWords blank-separated
   * tokens, each cut to MaxWordLen - 1 characters.
   */
  function Words(s: string): seq<string>
  {
    var ts := Tokens(s, Blank);
    TruncateAll(if |ts| < MaxWords then ts else ts[..MaxWords])
  }

  /** At most MaxWords words, each non-empty, blank-free and shorter than MaxWordLen. */
  lemma WordsShape(s: string)
    ensures |Words(s)| <= MaxWords
    ensures |Words(s)| == |Tokens(s, Blank)| || |Words(s)| == MaxWords
    ensures forall i :: 0 <= i < |Words(s)| ==>
      Words(s)[i] != [] && ' ' !in Words(s)[i] && |Words(s)[i]| < MaxWordLen
  {
    var ts := Tokens(s, Blank);
    TokensShape(s, Blank);
    forall i | 0 <= i < |Words(s)|
      ensures Words(s)[i] != [] && ' ' !in Words(s)[i]
    {
      assert ts[i] in ts;
      assert ts[i][0] == Words(s)[i][0];
    }
  }

  /** When nothing is cut off, the words glue back to the text with its blanks removed. */
  lemma WordsGlue(s: string)
    requires |Tokens(s, Blank)| <= MaxWords
    requires forall t :: t in Tokens(s, Blank) ==> |t| < MaxWordLen
    ensures Concat(Words(s)) == Strip(s, Blank)
  {
    var ts := Tokens(s, Blank);
    forall i | 0 <= i < |ts| ensures Words(s)[i] == ts[i] {
      assert ts[i] in ts;
    }
    assert Words(s) == ts;
    TokensGlue(s, Blank);
  }

  /**
   * One `strtok` call: skip delimiters from `from`, then take the run up to the
   * next delimiter or the end. `found` is false when only delimiters remain.
   */
  method NextToken(s: string, from: nat, delims: set<char>) returns (found: bool, start: nat, end: nat)
    requires from <= |s|
    ensures from <= start <= end <= |s|
    ensures found ==> start < end && Tokens(s[from..], delims) == [s[start..end]] + Tokens(s[end..], delims)
    ensures !found ==> Tokens(s[from..], delims) == []
  {
    start := from;
    while start < |s| && s[start] in delims
      invariant from <= start <= |s|
      invariant Tokens(s[from..], delims) == Tokens(s[start..], delims)
    {
      TokensSkip(s, start, delims);
      start := start + 1;
    }
    end := start;
    while end < |s| && s[end] !in delims
      invariant start <= end <= |s|
      invariant forall k :: start <= k < end ==> s[k] !in delims
    {
      end := end + 1;
    }
    found := start < end;
    if found {
      TokensAtRun(s, start, end, delims);
    } else {
      assert s[start..] == [];
    }
  }

  /**
   * `split_into_words`: fills `words` with the tokens of `input`, each truncated,
   * and stops after MaxWords of them. Returns how many it stored.
   */
  method SplitIntoWords(input: string, words: array<string>) returns (count: nat)
    requires words.Length == MaxWords
    modifies words
    ensures count <= MaxWords
    ensures words[..count] == Words(input)
    ensures words[count..] == old(words[count..])
  {
    count := 0;
    ghost var done: seq<string> := [];
    ghost var rest: seq<string>;
    var found, start, end := NextToken(input, 0, Blank);
    assert input[0..] == input;
    rest := if found then [input[start..end]] + Tokens(input[end..], Blank) else [];
    while found && count < MaxWords
      invariant count <= MaxWords && end <= |input|
      invariant |done| == count
      invariant Tokens(input, Blank) == done + rest
      invariant found ==> start < end && rest == [input[start..end]] + Tokens(input[end..], Blank)
      invariant !found ==> rest == []
      invariant words[..count] == TruncateAll(done)
      invariant words[count..] == old(words[count..])
    {
      words[count] := Truncate(input[start..end]);
      assert TruncateAll(done + [input[start..end]]) == TruncateAll(done) + [Truncate(input[start..end])];
      Assoc(done, [input[start..end]], Tokens(input[end..], Blank));
      done := done + [input[start..end]];
      count := count + 1;
      found, start, end := NextToken(input, end, Blank);
      rest := if found then [input[start..end]] + Tokens(input[end..], Blank) else [];
    }
    assert Tokens(input, Blank)[..count] == done;
  }
}
