/**
 * The mapper: the parent writes each word of a chunk followed by a newline
 * into the mapper's input pipe; the mapper reads white-space separated
 * tokens with `scanf("%s")` and writes `token 1` for each. The pipes and
 * processes are left out; what remains is a function from a chunk to the
 * pairs the parent reads back.
 */
module Mapper {
  import opened Config
  import opened CStrings
  import opened KeyValues

  /** The characters `scanf("%s")` skips (`isspace` in the C locale). */
  const Whitespace: set<char> := {' ', '\t', '\n', '\r', '\U{B}', '\U{C}'}

  /** What the parent writes into a mapper's input pipe: `"%s\n"` per word. */
  function Stream(chunk: seq<string>): string
  {
    if chunk == [] then [] else chunk[0] + ['\n'] + Stream(chunk[1..])
  }

  /** The pairs one mapper emits for its chunk: `(token, 1)` per token it scans. */
  function MapChunk(chunk: seq<string>): seq<KeyVal>
  {
    Ones(Tokens(Stream(chunk), Whitespace))
  }

  /** The white-space separated pieces of each word, word after word. */
  function Pieces(ws: seq<string>): seq<string>
  {
    if ws == [] then [] else Tokens(ws[0], Whitespace) + Pieces(ws[1..])
  }

  /** Mappers' output in collection order: mapper 0's pairs, then mapper 1's, and so on. */
  function MapAll(chunks: seq<seq<string>>): seq<KeyVal>
  {
    if chunks == [] then [] else MapAll(chunks[..|chunks| - 1]) + MapChunk(chunks[|chunks| - 1])
  }

  /**
   * A mapper emits `(p, 1)` for every white-space separated piece `p` of every
   * word it is sent, in order; the newlines between words never join two words.
   */
  lemma {:induction false} MapChunkPieces(chunk: seq<string>)
    ensures MapChunk(chunk) == Ones(Pieces(chunk))
  {
    TokensOfStream(chunk);
  }

  lemma {:induction false} TokensOfStream(chunk: seq<string>)
    ensures Tokens(Stream(chunk), Whitespace) == Pieces(chunk)
  {
    if chunk != [] {
      TokensSplit(chunk[0], '\n', Stream(chunk[1..]), Whitespace);
      TokensOfStream(chunk[1..]);
    }
  }

  lemma {:induction false} PiecesAppend(a: seq<string>, b: seq<string>)
    ensures Pieces(a + b) == Pieces(a) + Pieces(b)
  {
    if a == [] {
      assert a + b == b;
    } else {
      assert (a + b)[0] == a[0] && (a + b)[1..] == a[1..] + b;
      PiecesAppend(a[1..], b);
    }
  }

  /** Words that hold no white space (no tab, in practice) are their own pieces. */
  lemma {:induction false} PiecesOfPlainWords(ws: seq<string>)
    requires forall i :: 0 <= i < |ws| ==> ws[i] != [] && Free(ws[i], Whitespace)
    ensures Pieces(ws) == ws
  {
    if ws != [] {
      TokensOfWord(ws[0], Whitespace);
      PiecesOfPlainWords(ws[1..]);
    }
  }

  /** No piece is longer than the longest word it came from. */
  lemma {:induction false} PiecesFit(ws: seq<string>)
    requires forall i :: 0 <= i < |ws| ==> |ws[i]| < MaxWordLen
    ensures forall i :: 0 <= i < |Pieces(ws)| ==> |Pieces(ws)[i]| < MaxWordLen
  {
    if ws != [] {
      TokensShape(ws[0], Whitespace);
      PiecesFit(ws[1..]);
      var ts := Tokens(ws[0], Whitespace);
      forall i | 0 <= i < |Pieces(ws)| ensures |Pieces(ws)[i]| < MaxWordLen {
        if i < |ts| {
          assert ts[i] in ts;
        } else {
          assert Pieces(ws)[i] == Pieces(ws[1..])[i - |ts|];
        }
      }
    }
  }

  /**
   * All mappers together emit `(p, 1)` for every piece of the words they were
   * handed, in the order the chunks were handed out.
   */
  lemma {:induction false} MapAllPieces(chunks: seq<seq<string>>)
    ensures MapAll(chunks) == Ones(Pieces(Concat(chunks)))
  {
    if chunks != [] {
      var init, last := chunks[..|chunks| - 1], chunks[|chunks| - 1];
      MapAllPieces(init);
      MapChunkPieces(last);
      PiecesAppend(Concat(init), last);
      OnesAppend(Pieces(Concat(init)), Pieces(last));
    }
  }
}
