/**
 * The text index builder (`backend/build_vector_db.py`): read the
 * knowledge base, chunk it, and write the index and the chunk list, or
 * stop early when the file is missing or holds no chunk.
 *
 * Reading the file is the parameter `knowledgeBase` (`None`: it does not
 * exist). The embedding model and the index library are not modelled: an
 * artifact records which chunk sequence it was built from, in order.
 */
module VectorDbBuild {
  import opened Wrappers
  import opened Text
  import opened Chunking

  const IndexPath: string := "faiss_index.bin"
  const ChunksPath: string := "knowledge_chunks.pkl"

  /** A file the builder writes: the index over the encoded chunks, or the pickled chunk list. */
  datatype Artifact =
    | IndexFile(path: string, encoded: seq<string>)
    | ChunkFile(path: string, chunks: seq<string>)

  /** `build_vector_db()`: the files it writes, in order. */
  function BuildVectorDb(knowledgeBase: Option<string>): (written: seq<Artifact>)
    ensures knowledgeBase.None? ==> written == []
    ensures written != [] <==> knowledgeBase.Some? && !AllSpace(knowledgeBase.value, Python)
    ensures written != [] ==>
              && |written| == 2
              && written[0] == IndexFile(IndexPath, Chunks(knowledgeBase.value))
              && written[1] == ChunkFile(ChunksPath, written[0].encoded)
  {
    match knowledgeBase
    case None => []
    case Some(text) =>
      var chunks := Chunks(text);
      NoChunksIffBlank(text);
      if chunks == [] then []
      else [IndexFile(IndexPath, chunks), ChunkFile(ChunksPath, chunks)]
  }

  /** What is written is a list of non-empty, stripped paragraphs without a paragraph break. */
  lemma WrittenChunksAreParagraphs(knowledgeBase: Option<string>)
    requires BuildVectorDb(knowledgeBase) != []
    ensures var chunks := BuildVectorDb(knowledgeBase)[1].chunks;
            && chunks != []
            && forall k | 0 <= k < |chunks| ::
                 chunks[k] != [] && Strip(chunks[k], Python) == chunks[k] && !Contains(chunks[k], ParagraphBreak)
  {
    ChunksAreStripped(knowledgeBase.value);
    ChunksHaveNoParagraphBreak(knowledgeBase.value);
  }
}
