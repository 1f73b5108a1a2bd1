/**
 * The C string operations the program relies on, over NUL-free `string`s:
 * `strcmp` (as a sign), the `strncpy(dst, src, MAX_WORD_LEN - 1)` truncation,
 * and tokenising as `strtok` and `scanf("%s")` do it.
 */
module CStrings {
  import opened Config

  /**
   * The sign of `strcmp(a, b)`: byte-wise lexicographic comparison, where a
   * proper prefix sorts before the longer string.
   */
  function StrCmp(a: string, b: string): (r: int)
    ensures -1 <= r <= 1
  {
    CmpFrom(a, b, 0)
  }

  /** The comparison from position `i` on, the positions before `i` having compared equal. */
  function CmpFrom(a: string, b: string, i: nat): (r: int)
    requires i <= |a| && i <= |b|
    ensures -1 <= r <= 1
    decreases |a| - i
  {
    if i == |a| && i == |b| then 0
    else if i == |a| then -1
    else if i == |b| then 1
    else if a[i] < b[i] then -1
    else if a[i] > b[i] then 1
    else CmpFrom(a, b, i + 1)
  }

  /** `strcmp` returns zero exactly for equal strings. */
  lemma StrCmpZero(a: string, b: string)
    ensures StrCmp(a, b) == 0 <==> a == b
  {
    CmpFromZero(a, b, 0);
    assert a[0..] == a && b[0..] == b;
  }

  lemma {:induction false} CmpFromZero(a: string, b: string, i: nat)
    requires i <= |a| && i <= |b|
    ensures CmpFrom(a, b, i) == 0 <==> a[i..] == b[i..]
    decreases |a| - i
  {
    if i < |a| && i < |b| {
      CmpFromZero(a, b, i + 1);
      assert a[i..] == [a[i]] + a[i + 1..];
      assert b[i..] == [b[i]] + b[i + 1..];
    } else if i < |a| || i < |b| {
      assert |a[i..]| != |b[i..]|;
    }
  }

  /** Swapping the arguments flips the sign. */
  lemma StrCmpAntisymmetric(a: string, b: string)
    ensures StrCmp(a, b) == -StrCmp(b, a)
  {
    CmpFromAntisymmetric(a, b, 0);
  }

  lemma {:induction false} CmpFromAntisymmetric(a: string, b: string, i: nat)
    requires i <= |a| && i <= |b|
    ensures CmpFrom(a, b, i) == -CmpFrom(b, a, i)
    decreases |a| - i
  {
    if i < |a| && i < |b| && a[i] == b[i] {
      CmpFromAntisymmetric(a, b, i + 1);
    }
  }

  /** `strcmp` orders strings transitively. */
  lemma StrCmpTransitive(a: string, b: string, c: string)
    requires StrCmp(a, b) <= 0 && StrCmp(b, c) <= 0
    ensures StrCmp(a, c) <= 0
  {
    CmpFromTransitive(a, b, c, 0);
  }

  lemma {:induction false} CmpFromTransitive(a: string, b: string, c: string, i: nat)
    requires i <= |a| && i <= |b| && i <= |c|
    requires CmpFrom(a, b, i) <= 0 && CmpFrom(b, c, i) <= 0
    ensures CmpFrom(a, c, i) <= 0
    decreases |a| - i
  {
    if i < |a| && i < |b| && i < |c| && a[i] == b[i] == c[i] {
      CmpFromTransitive(a, b, c, i + 1);
    }
  }

  /** Strict comparison chains through a non-strict one. */
  lemma StrCmpStrictTransitive(a: string, b: string, c: string)
    requires StrCmp(a, b) < 0 && StrCmp(b, c) <= 0
    ensures StrCmp(a, c) < 0
  {
    StrCmpTransitive(a, b, c);
    StrCmpZero(a, c);
    if a == c {
      StrCmpAntisymmetric(a, b);
    }
  }

  /**
   * What `strncpy(dst, src, MaxWordLen - 1)` followed by
   * `dst[MaxWordLen - 1] = '\0'` leaves in `dst`.
   */
  function Truncate(w: string): (t: string)
    ensures |t| < MaxWordLen
    ensures t <= w
    ensures |w| < MaxWordLen ==> t == w
    ensures |w| >= MaxWordLen ==> |t| == MaxWordLen - 1
  {
    if |w| < MaxWordLen then w else w[..MaxWordLen - 1]
  }

  /** Length of the leading run of `s` that holds no delimiter. */
  function RunLength(s: string, delims: set<char>): (n: nat)
    ensures n <= |s|
    ensures forall i :: 0 <= i < n ==> s[i] !in delims
    ensures n == |s| || s[n] in delims
  {
    if s == [] || s[0] in delims then 0 else 1 + RunLength(s[1..], delims)
  }

  /**
   * The tokens of `s`: its maximal non-empty runs free of `delims`, in order.
   * `strtok` with delimiter string " " and `scanf("%s")` (delimiters the C
   * white-space characters) both produce exactly these.
   */
  function Tokens(s: string, delims: set<char>): seq<string>
    decreases |s|
  {
    if s == [] then []
    else if s[0] in delims then Tokens(s[1..], delims)
    else
      var n := RunLength(s, delims);
      [s[..n]] + Tokens(s[n..], delims)
  }

  /** A string with no delimiters in it. */
  predicate Free(w: string, delims: set<char>)
  {
    forall i :: 0 <= i < |w| ==> w[i] !in delims
  }

  /** `s` with every delimiter removed. */
  function Strip(s: string, delims: set<char>): string
  {
    if s == [] then [] else (if s[0] in delims then [] else [s[0]]) + Strip(s[1..], delims)
  }

  /** Every token is non-empty, delimiter-free and no longer than its source. */
  lemma {:induction false} TokensShape(s: string, delims: set<char>)
    ensures forall t :: t in Tokens(s, delims) ==> t != [] && Free(t, delims) && |t| <= |s|
    decreases |s|
  {
    if s == [] {
    } else if s[0] in delims {
      TokensShape(s[1..], delims);
    } else {
      var n := RunLength(s, delims);
      TokensShape(s[n..], delims);
    }
  }

  /** Every character of every token is a character of the text. */
  lemma {:induction false} TokensChars(s: string, delims: set<char>)
    ensures forall t, c :: t in Tokens(s, delims) && c in t ==> c in s
    decreases |s|
  {
    if s == [] {
    } else if s[0] in delims {
      TokensChars(s[1..], delims);
    } else {
      var n := RunLength(s, delims);
      TokensChars(s[n..], delims);
      assert s == s[..n] + s[n..];
    }
  }

  /** The run `s[..k]` is the whole leading run when it is closed by a delimiter or the end. */
  lemma RunLengthExact(s: string, delims: set<char>, k: nat)
    requires k <= |s| && Free(s[..k], delims)
    requires k == |s| || s[k] in delims
    ensures RunLength(s, delims) == k
  {
  }

  /** Tokenising does not lose or invent characters: the tokens glue back to `s` without its delimiters. */
  lemma {:induction false} TokensGlue(s: string, delims: set<char>)
    ensures Concat(Tokens(s, delims)) == Strip(s, delims)
    decreases |s|
  {
    if s == [] {
    } else if s[0] in delims {
      TokensGlue(s[1..], delims);
    } else {
      var n := RunLength(s, delims);
      TokensGlue(s[n..], delims);
      ConcatCons(s[..n], Tokens(s[n..], delims));
      StripRun(s, n, delims);
    }
  }

  /** Stripping a delimiter-free prefix keeps it whole. */
  lemma {:induction false} StripRun(s: string, n: nat, delims: set<char>)
    requires n <= |s| && Free(s[..n], delims)
    ensures Strip(s, delims) == s[..n] + Strip(s[n..], delims)
    decreases n
  {
    if n > 0 {
      assert s[1..][..n - 1] == s[1..n];
      assert Free(s[1..n], delims) by {
        forall i | 0 <= i < n - 1 ensures s[1..n][i] !in delims {
          assert s[1..n][i] == s[..n][i + 1];
        }
      }
      assert s[..n][0] == s[0];
      StripRun(s[1..], n - 1, delims);
      assert s[1..][n - 1..] == s[n..];
      assert s[..n] == [s[0]] + s[1..][..n - 1];
    }
  }

  /** A delimiter separates: the tokens of `x + [d] + y` are those of `x` followed by those of `y`. */
  lemma {:induction false} TokensSplit(x: string, d: char, y: string, delims: set<char>)
    requires d in delims
    ensures Tokens(x + [d] + y, delims) == Tokens(x, delims) + Tokens(y, delims)
    decreases |x|
  {
    var s := x + [d] + y;
    if x == [] {
      assert s[1..] == y;
    } else if x[0] in delims {
      assert s[1..] == x[1..] + [d] + y;
      TokensSplit(x[1..], d, y, delims);
    } else {
      var n := RunLength(x, delims);
      RunBeforeDelimiter(x, d, y, delims);
      TokensSplit(x[n..], d, y, delims);
      Assoc([x[..n]], Tokens(x[n..], delims), Tokens(y, delims));
    }
  }

  /** The leading run of `x + [d] + y` is that of `x` when `x` does not start with a delimiter. */
  lemma RunBeforeDelimiter(x: string, d: char, y: string, delims: set<char>)
    requires d in delims && x != [] && x[0] !in delims
    ensures var s, n := x + [d] + y, RunLength(x, delims);
      RunLength(s, delims) == n && s[..n] == x[..n] && s[n..] == x[n..] + [d] + y
  {
    var s, n := x + [d] + y, RunLength(x, delims);
    assert s[..n] == x[..n];
    assert Free(s[..n], delims) by {
      forall i | 0 <= i < n ensures s[..n][i] !in delims {
        assert s[..n][i] == x[i];
      }
    }
    assert s[n] in delims by {
      if n < |x| { assert s[n] == x[n]; } else { assert s[n] == d; }
    }
    RunLengthExact(s, delims, n);
    assert s[n..] == x[n..] + [d] + y;
  }

  /** A delimiter at the front of the rest of the text is skipped. */
  lemma TokensSkip(s: string, p: nat, delims: set<char>)
    requires p < |s| && s[p] in delims
    ensures Tokens(s[p..], delims) == Tokens(s[p + 1..], delims)
  {
    assert s[p..][1..] == s[p + 1..];
  }

  /** A maximal delimiter-free run at the front of the rest of the text is its next token. */
  lemma TokensAtRun(s: string, start: nat, end: nat, delims: set<char>)
    requires start < end <= |s|
    requires forall k :: start <= k < end ==> s[k] !in delims
    requires end == |s| || s[end] in delims
    ensures Tokens(s[start..], delims) == [s[start..end]] + Tokens(s[end..], delims)
  {
    var t := s[start..];
    assert t[..end - start] == s[start..end];
    assert Free(s[start..end], delims) by {
      forall k | 0 <= k < end - start ensures s[start..end][k] !in delims {
        assert s[start..end][k] == s[start + k];
      }
    }
    RunLengthExact(t, delims, end - start);
    assert t[end - start..] == s[end..];
  }

  /** A non-empty delimiter-free word is its own single token. */
  lemma TokensOfWord(w: string, delims: set<char>)
    requires w != [] && Free(w, delims)
    ensures Tokens(w, delims) == [w]
  {
    assert w[..|w|] == w;
    RunLengthExact(w, delims, |w|);
    assert w[|w|..] == [];
  }
}
