/**
 Retrieval hits as the pipeline's stages pass them on.  A missing metadata map is an empty one.
 */
module StageHits {
  import opened Strings

  datatype Chunk = Chunk(id: string, content: string)

  datatype StageHit = StageHit(chunkID: string, bookID: string, score: real, stage: string, content: string,
                               metadata: map<string, string>, chunk: Chunk)

  /** A metadata entry; a missing one reads as the empty string. */
  function Entry(metadata: map<string, string>, key: string): string {
    if key in metadata then metadata[key] else ""
  }

  /** stageHitKey: the chunk family, else the chunk id, else the id of the loaded chunk. */
  function Key(h: StageHit): string {
    var family := TrimSpace(Entry(h.metadata, "chunk_family"));
    var chunkID := TrimSpace(h.chunkID);
    if family != "" then family else if chunkID != "" then chunkID else TrimSpace(h.chunk.id)
  }

  function Hash(h: StageHit): string { TrimSpace(Entry(h.metadata, "content_sha256")) }

  /** The text a hit contributes to the context. */
  function Text(h: StageHit): string {
    var own := TrimSpace(h.content);
    if own != "" then own else TrimSpace(h.chunk.content)
  }

  /** The text is the hit's own content if that says anything, else the loaded chunk's. */
  lemma TextIs(h: StageHit)
    ensures if exists i :: 0 <= i < |h.content| && !IsSpace(h.content[i]) then Text(h) == TrimSpace(h.content)
      else Text(h) == TrimSpace(h.chunk.content)
  {
    var i, j := TrimSpaceIs(h.content);
    hide IsSpace, TrimSpace;
    assert (exists k :: 0 <= k < |h.content| && !IsSpace(h.content[k])) <==> i < j;
  }
}
