/** The bookkeeping of `QdrantVectorDB` (app/vectordb.py) around the vector
    store: the per-chunk metadata `save_index` attaches to the texts it adds,
    and how `search` turns the retriever's documents into strings. Embedding,
    chunking and the store itself are outside the model. */
module VectorIndex {
  import opened Maybe

  /** The key every chunk's metadata carries. */
  const DocNameKey: string := "doc_name"

  /** `chunk_metadata and len(chunk_metadata) == len(chunks)`: the per-chunk
      metadata is used only when it is a non-empty list with one entry per chunk. */
  predicate UsesChunkMetadata<V>(chunks: seq<string>, chunkMetadata: Option<seq<map<string, V>>>) {
    chunkMetadata.Some? && |chunkMetadata.value| > 0 && |chunkMetadata.value| == |chunks|
  }

  /** The `metadatas` list of `save_index(doc_name, embeddings, chunks,
      chunk_metadata)` (app/vectordb.py:25-34): one dict per chunk, in chunk
      order, holding `doc_name` updated with that chunk's own metadata (whose
      keys, `doc_name` included, win), or just `doc_name` when the per-chunk
      metadata is missing or of the wrong length. */
  method ChunkMetadatas<V>(docName: V, chunks: seq<string>, chunkMetadata: Option<seq<map<string, V>>>)
    returns (metadatas: seq<map<string, V>>)
    ensures |metadatas| == |chunks|
    ensures !UsesChunkMetadata(chunks, chunkMetadata) ==>
      forall k :: 0 <= k < |chunks| ==> metadatas[k] == map[DocNameKey := docName]
    ensures UsesChunkMetadata(chunks, chunkMetadata) ==>
      forall k :: 0 <= k < |chunks| ==>
        && metadatas[k].Keys == {DocNameKey} + chunkMetadata.value[k].Keys
        && (forall key :: key in chunkMetadata.value[k] ==> metadatas[k][key] == chunkMetadata.value[k][key])
        && (DocNameKey !in chunkMetadata.value[k] ==> metadatas[k][DocNameKey] == docName)
  {
    if UsesChunkMetadata(chunks, chunkMetadata) {
      var metas := chunkMetadata.value;
      metadatas := [];
      var i := 0;
      while i < |metas|
        invariant 0 <= i <= |metas|
        invariant |metadatas| == i
        invariant forall k :: 0 <= k < i ==> metadatas[k] == map[DocNameKey := docName] + metas[k]
      {
        var m := map[DocNameKey := docName];
        m := m + metas[i];
        metadatas := metadatas + [m];
        i := i + 1;
      }
    } else {
      metadatas := seq(|chunks|, _ => map[DocNameKey := docName]);
    }
  }

  /** A document the retriever returns. */
  datatype Document = Document(pageContent: string)

  /** `search(doc_name, query, top_k)` (app/vectordb.py:37-40) after the
      retriever has answered: the page contents in the retriever's order, and
      `[]` when it found nothing. */
  function SearchResults(docs: seq<Document>): (r: seq<string>)
    ensures |r| == |docs|
    ensures forall k :: 0 <= k < |docs| ==> r[k] == docs[k].pageContent
    ensures |docs| == 0 ==> r == []
  {
    if |docs| == 0 then [] else seq(|docs|, k requires 0 <= k < |docs| => docs[k].pageContent)
  }
}
