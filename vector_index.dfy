/**
 * `DiarioVectorIndexer`: the chunk corpus is turned into one embedding per
 * chunk, held in a fresh inner-product index, and saved next to the chunk
 * records (the "metadata") that the index positions refer to. The encoder
 * is a parameter applied to each chunk text; the index is the sequence of
 * vectors added to it; the two file writes are returned instead of made.
 */
module VectorIndex {
  import opened Wrappers
  import opened Json

  /** An embedding; its contents are opaque to the pipeline. */
  type Vector = seq<real>

  datatype IndexError =
    | LoadFailed    // `json.load` raised, or the file does not hold a list
    | NoText        // a chunk that is not a dict (TypeError) or has no `text` (KeyError)
    | EncodeFailed  // the encoder raised
    | NoIndex       // RuntimeError in `guardar`: there is no index yet

  /** What `guardar` writes, in this order: the index file, then the metadata file. */
  datatype Saved = Saved(indexFile: seq<Vector>, metadataFile: seq<Json>)

  /** `[chunk["text"] for chunk in chunks]`; None where a lookup raises. */
  function TextsOf(chunks: seq<Json>): (r: Option<seq<Json>>)
    ensures r.Some? <==> forall i :: 0 <= i < |chunks| ==> chunks[i].JObj? && "text" in chunks[i].fields
    ensures r.Some? ==> |r.value| == |chunks|
    ensures r.Some? ==> forall i :: 0 <= i < |chunks| ==> r.value[i] == chunks[i].fields["text"]
  {
    if chunks == [] then Some([])
    else if !chunks[0].JObj? || "text" !in chunks[0].fields then None
    else
      match TextsOf(chunks[1..])
      case None => None
      case Some(rest) => Some([chunks[0].fields["text"]] + rest)
  }

  /** The encoder over a batch: one vector per text, or a failure if it fails on any. */
  function EmbedAll(texts: seq<Json>, embed: Json -> Option<Vector>): (r: Option<seq<Vector>>)
    ensures r.Some? <==> forall i :: 0 <= i < |texts| ==> embed(texts[i]).Some?
    ensures r.Some? ==> |r.value| == |texts|
    ensures r.Some? ==> forall i :: 0 <= i < |texts| ==> r.value[i] == embed(texts[i]).value
  {
    if texts == [] then Some([])
    else if embed(texts[0]).None? then None
    else
      match EmbedAll(texts[1..], embed)
      case None => None
      case Some(rest) => Some([embed(texts[0]).value] + rest)
  }

  class VectorIndexer {
    /** The inner-product index, absent until one is built. */
    var index: Option<seq<Vector>>
    /** The chunk records; position `i` describes vector `i` of the index. */
    var metadata: seq<Json>

    /** Index and metadata describe the same chunks, position by position. */
    predicate Aligned()
      reads this
    {
      index.Some? ==> |index.value| == |metadata|
    }

    /** A fresh indexer has no index and no metadata. */
    constructor()
      ensures index == None && metadata == []
      ensures Aligned()
    {
      index := None;
      metadata := [];
    }

    /** `crear_indice(embeddings)`: a new empty index receives the embeddings; the old one is dropped. */
    method CreateIndex(embeddings: seq<Vector>)
      modifies this
      ensures index == Some(embeddings)
      ensures metadata == old(metadata)
    {
      index := Some(embeddings);
    }

    /** `guardar(ruta_index, ruta_metadata)`: both files, index first; RuntimeError without an index. */
    method Save() returns (r: Result<Saved, IndexError>)
      ensures r.Err? <==> index.None?
      ensures r.Err? ==> r.error == NoIndex
      ensures r.Ok? ==> r.value == Saved(index.value, metadata)
    {
      if index.None? {
        return Err(NoIndex);
      }
      r := Ok(Saved(index.value, metadata));
    }

    /**
     * `indexar_desde_chunks(...)`: load the chunk list, collect the texts,
     * replace the metadata, encode, build a fresh index and save. A missing
     * text fails before anything changes; an encoder failure comes after the
     * metadata was replaced, leaving it next to the previous index.
     */
    method IndexFromChunks(loaded: Option<Json>, embed: Json -> Option<Vector>) returns (r: Result<Saved, IndexError>)
      modifies this
      ensures (loaded.None? || !loaded.value.JArr?) ==> r == Err(LoadFailed) && unchanged(this)
      ensures loaded.Some? && loaded.value.JArr? && TextsOf(loaded.value.items).None? ==>
        r == Err(NoText) && unchanged(this)
      ensures (loaded.Some? && loaded.value.JArr? && TextsOf(loaded.value.items).Some?
        && EmbedAll(TextsOf(loaded.value.items).value, embed).None?) ==>
        r == Err(EncodeFailed) && metadata == loaded.value.items && index == old(index)
      ensures (loaded.Some? && loaded.value.JArr? && TextsOf(loaded.value.items).Some?
        && EmbedAll(TextsOf(loaded.value.items).value, embed).Some?) ==> r.Ok?
      ensures r.Ok? ==> (
        && loaded.Some? && loaded.value.JArr? && metadata == loaded.value.items
        && TextsOf(metadata).Some? && index == EmbedAll(TextsOf(metadata).value, embed)
        && Aligned()
        && r.value == Saved(index.value, metadata))
      ensures r.Ok? ==> forall i :: 0 <= i < |metadata| ==>
        metadata[i].JObj? && "text" in metadata[i].fields && index.value[i] == embed(metadata[i].fields["text"]).value
    {
      if loaded.None? || !loaded.value.JArr? {
        return Err(LoadFailed);
      }
      var chunks := loaded.value.items;
      var texts := TextsOf(chunks);
      if texts.None? {
        return Err(NoText);
      }
      metadata := chunks;
      var embeddings := EmbedAll(texts.value, embed);
      if embeddings.None? {
        return Err(EncodeFailed);
      }
      CreateIndex(embeddings.value);
      r := Save();
    }
  }
}
