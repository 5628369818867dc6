/**
 * Splitting the knowledge base into chunks, shared by both index builders
 * (`backend/build_vector_db.py` and `backend/build_image_vector_db.py`):
 * `[p.strip() for p in text.split("\n\n") if p.strip()]`.
 */
module Chunking {
  import opened Wrappers
  import opened Text

  const ParagraphBreak: string := "\n\n"

  /** The comprehension over the pieces: each piece stripped, the blank ones dropped. */
  function ChunksOf(pieces: seq<string>): (chunks: seq<string>)
    ensures |chunks| <= |pieces|
    ensures forall k | 0 <= k < |chunks| :: chunks[k] != [] && IsStripped(chunks[k], Python)
  {
    if pieces == [] then []
    else
      var c := Strip(pieces[0], Python);
      (if c != [] then [c] else []) + ChunksOf(pieces[1..])
  }

  /** The chunks of a knowledge-base text. */
  function Chunks(text: string): (chunks: seq<string>)
    ensures |chunks| <= |Split(text, ParagraphBreak)|
    ensures forall k | 0 <= k < |chunks| :: chunks[k] != [] && IsStripped(chunks[k], Python)
  {
    ChunksOf(Split(text, ParagraphBreak))
  }

  /** Every chunk is its own strip: it has no white space to remove at either end. */
  lemma ChunksAreStripped(text: string)
    ensures forall k | 0 <= k < |Chunks(text)| :: Chunks(text)[k] != [] && Strip(Chunks(text)[k], Python) == Chunks(text)[k]
  {
    forall k | 0 <= k < |Chunks(text)|
      ensures Strip(Chunks(text)[k], Python) == Chunks(text)[k]
    {
      StripStripped(Chunks(text)[k], Python);
    }
  }

  /**
   * The positions, from `j` on, of the pieces that are kept, in increasing
   * order: a piece is kept exactly when it is not all white space, that is
   * when its strip is not empty.
   */
  function KeptFrom(pieces: seq<string>, j: nat): (idx: seq<nat>)
    requires j <= |pieces|
    ensures forall k | 0 <= k < |idx| :: j <= idx[k] < |pieces| && !AllSpace(pieces[idx[k]], Python)
    ensures forall m | j <= m < |pieces| :: (m in idx <==> !AllSpace(pieces[m], Python))
    decreases |pieces| - j
  {
    if j == |pieces| then []
    else (if !AllSpace(pieces[j], Python) then [j] else []) + KeptFrom(pieces, j + 1)
  }

  /** The kept positions are strictly increasing. */
  lemma {:induction false} KeptFromIncreasing(pieces: seq<string>, j: nat)
    requires j <= |pieces|
    ensures forall k, l | 0 <= k < l < |KeptFrom(pieces, j)| :: KeptFrom(pieces, j)[k] < KeptFrom(pieces, j)[l]
    decreases |pieces| - j
  {
    if j < |pieces| {
      KeptFromIncreasing(pieces, j + 1);
    }
  }

  /** Chunk `k` is the strip of the `k`-th kept piece, and there are as many chunks as kept pieces. */
  lemma {:induction false} ChunksAreKeptPieces(pieces: seq<string>, j: nat)
    requires j <= |pieces|
    ensures |KeptFrom(pieces, j)| == |ChunksOf(pieces[j..])|
    ensures forall k | 0 <= k < |KeptFrom(pieces, j)| :: ChunksOf(pieces[j..])[k] == Strip(pieces[KeptFrom(pieces, j)[k]], Python)
    decreases |pieces| - j
  {
    if j < |pieces| {
      ChunksAreKeptPieces(pieces, j + 1);
      assert pieces[j..][1..] == pieces[j + 1..];
    }
  }

  /** The chunks, in source order, are the stripped non-blank pieces of the split. */
  lemma ChunksInSourceOrder(text: string)
    ensures var pieces := Split(text, ParagraphBreak);
            var idx := KeptFrom(pieces, 0);
            && |idx| == |Chunks(text)| <= |pieces|
            && (forall k | 0 <= k < |idx| :: idx[k] < |pieces| && Chunks(text)[k] == Strip(pieces[idx[k]], Python))
            && (forall k, l | 0 <= k < l < |idx| :: idx[k] < idx[l])
            && (forall j | 0 <= j < |pieces| :: (j in idx <==> Strip(pieces[j], Python) != []))
  {
    var pieces := Split(text, ParagraphBreak);
    ChunksAreKeptPieces(pieces, 0);
    KeptFromIncreasing(pieces, 0);
    assert pieces[0..] == pieces;
  }

  /** A part of a string without `sep` has no `sep` either. */
  lemma SliceAvoids(s: string, a: nat, b: nat, sep: string)
    requires a <= b <= |s| && !Contains(s, sep)
    ensures !Contains(s[a..b], sep)
  {
    forall k: nat | StartsAt(s[a..b], k, sep)
      ensures false
    {
      var w := s[a..b][k..k + |sep|];
      assert forall t | 0 <= t < |sep| :: w[t] == s[a + k + t];
      assert s[a + k..a + k + |sep|] == sep;
      assert StartsAt(s, a + k, sep);
    }
  }

  /** No chunk contains a paragraph break. */
  lemma {:induction false} ChunksOfAvoid(pieces: seq<string>)
    requires forall i | 0 <= i < |pieces| :: !Contains(pieces[i], ParagraphBreak)
    ensures forall k | 0 <= k < |ChunksOf(pieces)| :: !Contains(ChunksOf(pieces)[k], ParagraphBreak)
  {
    if pieces != [] {
      ChunksOfAvoid(pieces[1..]);
      StripRemovesSpace(pieces[0], Python);
      var a, b :| 0 <= a <= b <= |pieces[0]| && Strip(pieces[0], Python) == pieces[0][a..b];
      SliceAvoids(pieces[0], a, b, ParagraphBreak);
    }
  }

  lemma ChunksHaveNoParagraphBreak(text: string)
    ensures forall k | 0 <= k < |Chunks(text)| :: !Contains(Chunks(text)[k], ParagraphBreak)
  {
    ChunksOfAvoid(Split(text, ParagraphBreak));
  }

  /** No chunk survives exactly when every piece is blank. */
  lemma {:induction false} ChunksOfEmpty(pieces: seq<string>)
    ensures ChunksOf(pieces) == [] <==> forall i | 0 <= i < |pieces| :: AllSpace(pieces[i], Python)
  {
    if pieces != [] {
      ChunksOfEmpty(pieces[1..]);
      assert forall i | 1 <= i < |pieces| :: pieces[i] == pieces[1..][i - 1];
    }
  }

  /** A join of blank pieces with a blank separator is blank, and conversely its pieces are blank. */
  lemma {:induction false} JoinAllSpace(pieces: seq<string>, sep: string)
    requires AllSpace(sep, Python)
    ensures AllSpace(Join(pieces, sep), Python) <==> forall i | 0 <= i < |pieces| :: AllSpace(pieces[i], Python)
  {
    if |pieces| > 1 {
      JoinAllSpace(pieces[1..], sep);
      var rest := Join(pieces[1..], sep);
      var whole := pieces[0] + sep + rest;
      assert Join(pieces, sep) == whole;
      assert forall p | 0 <= p < |pieces[0]| :: whole[p] == pieces[0][p];
      assert forall p | 0 <= p < |rest| :: whole[|pieces[0]| + |sep| + p] == rest[p];
      assert forall i | 1 <= i < |pieces| :: pieces[i] == pieces[1..][i - 1];
    }
  }

  /** A knowledge base yields no chunk exactly when it is all white space. */
  lemma NoChunksIffBlank(text: string)
    ensures Chunks(text) == [] <==> AllSpace(text, Python)
  {
    var pieces := Split(text, ParagraphBreak);
    ChunksOfEmpty(pieces);
    JoinSplit(text, ParagraphBreak);
    JoinAllSpace(pieces, ParagraphBreak);
  }
}
