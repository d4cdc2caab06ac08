/**
 * `crear_chunks_enriquecidos`, in its two generations. The analyzer's version
 * takes the model's chunks as they are, sanitises their metadata, forces
 * unknown types to `mixto` and keys each chunk by the model-supplied index;
 * a chunking failure is re-raised. The older version numbers the chunks by
 * position and copies the entry-level analysis into every chunk.
 */
module Enrich {
  import opened Wrappers
  import opened Text
  import opened Json
  import opened Ids
  import opened Sanitize
  import opened Seqs

  datatype EnrichError =
    | ChunkingFailed   // the model chunker raised; re-raised unchanged
    | MalformedChunk   // a KeyError, TypeError or AttributeError on one chunk

  const ChunkTypes: set<Json> := {JStr("hechos"), JStr("emociones"), JStr("reflexion"), JStr("mixto")}

  const RecordKeys: set<string> := {"chunk_id", "entry_id", "index", "text", "word_count", "char_count", "type", "metadata"}

  /** An enriched chunk record; the counts are recomputed from the text. */
  function Record(entryId: string, index: Json, text: string, typ: Json, metadata: Obj): (r: Obj)
    ensures r.Keys == RecordKeys
    ensures r["chunk_id"] == JStr(ChunkId(entryId, index)) && r["entry_id"] == JStr(entryId)
    ensures r["index"] == index && r["text"] == JStr(text) && r["type"] == typ
    ensures r["word_count"] == JInt(|Words(text)|) && r["char_count"] == JInt(|text|)
    ensures r["metadata"] == JObj(metadata)
  {
    map[
      "chunk_id" := JStr(ChunkId(entryId, index)),
      "entry_id" := JStr(entryId),
      "index" := index,
      "text" := JStr(text),
      "word_count" := JInt(|Words(text)|),
      "char_count" := JInt(|text|),
      "type" := typ,
      "metadata" := JObj(metadata)
    ]
  }

  /** `prefix + rest` when the rest succeeded. */
  function Prepend(prefix: seq<Obj>, r: Result<seq<Obj>, EnrichError>): Result<seq<Obj>, EnrichError> {
    match r
    case Err(e) => Err(e)
    case Ok(rest) => Ok(prefix + rest)
  }

  lemma PrependNothing(r: Result<seq<Obj>, EnrichError>)
    ensures Prepend([], r) == r
  {
    if r.Ok? {
      assert [] + r.value == r.value;
    }
  }

  lemma PrependTwice(out: seq<Obj>, head: Obj, r: Result<seq<Obj>, EnrichError>)
    ensures Prepend(out, Prepend([head], r)) == Prepend(out + [head], r)
  {
    if r.Ok? {
      assert out + ([head] + r.value) == (out + [head]) + r.value;
    }
  }

  // ---------------------------------------------------------------- the analyzer's version

  /** One model chunk made into an enriched record, as the loop body does it. */
  function EnrichOne(chunk: Json, analisis: Obj, entryId: string): (r: Result<Obj, EnrichError>)
    ensures r.Ok? ==> chunk.JObj? && "text" in chunk.fields && chunk.fields["text"].JStr? && "index" in chunk.fields
    ensures r.Ok? ==> var t := chunk.fields["text"].s;
      && r.value.Keys == RecordKeys
      && r.value["chunk_id"] == JStr(ChunkId(entryId, chunk.fields["index"]))
      && r.value["entry_id"] == JStr(entryId)
      && r.value["index"] == chunk.fields["index"]
      && r.value["text"] == JStr(t)
      && r.value["word_count"] == JInt(|Words(t)|)
      && r.value["char_count"] == JInt(|t|)
      && r.value["type"] in ChunkTypes
      && (Get(chunk.fields, "type", JNull) in ChunkTypes ==> r.value["type"] == chunk.fields["type"])
    ensures r.Ok? ==> (
      && "fecha" in analisis && r.value.Keys == RecordKeys && r.value["metadata"].JObj?
      && SafeMetadata(Get(chunk.fields, "metadata", JNull), chunk.fields["text"].s).Ok?
      && r.value["metadata"].fields
         == SafeMetadata(Get(chunk.fields, "metadata", JNull), chunk.fields["text"].s).value["date" := analisis["fecha"]])
  {
    if !chunk.JObj? || "text" !in chunk.fields || !chunk.fields["text"].JStr? then Err(MalformedChunk)
    else
      var text := chunk.fields["text"].s;
      match SanitizeChunk(chunk.fields, text)
      case Err(_) => Err(MalformedChunk)
      case Ok(clean) =>
        var ty := Get(clean, "type", JNull);
        if !Hashable(ty) || "index" !in clean || "fecha" !in analisis then Err(MalformedChunk)
        else
          var typ := if ty in ChunkTypes then ty else JStr("mixto");
          Ok(Record(entryId, clean["index"], text, typ, clean["metadata"].fields["date" := analisis["fecha"]]))
  }

  /** `EnrichOne` for one entry's analysis and id, as a function of the chunk. */
  function EnrichFn(analisis: Obj, entryId: string): Json -> Result<Obj, EnrichError> {
    chunk => EnrichOne(chunk, analisis, entryId)
  }

  /** The loop over the model's chunks: the first malformed chunk aborts the whole call. */
  function EnrichAll(items: seq<Json>, analisis: Obj, entryId: string): Result<seq<Obj>, EnrichError> {
    MapAll(items, EnrichFn(analisis, entryId))
  }

  /** One record per model chunk, in order, each the enrichment of its chunk; or a failure naming none. */
  lemma EnrichAllPointwise(items: seq<Json>, analisis: Obj, entryId: string)
    ensures var r := EnrichAll(items, analisis, entryId);
      r.Ok? <==> forall k :: 0 <= k < |items| ==> EnrichOne(items[k], analisis, entryId).Ok?
    ensures var r := EnrichAll(items, analisis, entryId);
      r.Ok? ==> (|r.value| == |items|
        && forall k :: 0 <= k < |items| ==> r.value[k] == EnrichOne(items[k], analisis, entryId).value)
  {
    MapAllPointwise(items, EnrichFn(analisis, entryId));
  }

  lemma EnrichAllStep(items: seq<Json>, analisis: Obj, entryId: string)
    requires items != []
    ensures var one := EnrichOne(items[0], analisis, entryId);
      EnrichAll(items, analisis, entryId)
      == if one.Err? then Err(one.error) else Prepend([one.value], EnrichAll(items[1..], analisis, entryId))
  {
  }

  /** The loop of `crear_chunks_enriquecidos` over the model's chunk list. */
  method EnrichChunks(items: seq<Json>, analisis: Obj, entryId: string) returns (r: Result<seq<Obj>, EnrichError>)
    ensures r == EnrichAll(items, analisis, entryId)
  {
    var out: seq<Obj> := [];
    var k := 0;
    assert items[0..] == items;
    PrependNothing(EnrichAll(items, analisis, entryId));
    while k < |items|
      invariant 0 <= k <= |items|
      invariant EnrichAll(items, analisis, entryId) == Prepend(out, EnrichAll(items[k..], analisis, entryId))
    {
      assert items[k..][0] == items[k] && items[k..][1..] == items[k + 1..];
      EnrichAllStep(items[k..], analisis, entryId);
      var one := EnrichOne(items[k], analisis, entryId);
      if one.Err? {
        return Err(one.error);
      }
      PrependTwice(out, one.value, EnrichAll(items[k + 1..], analisis, entryId));
      out := out + [one.value];
      k := k + 1;
    }
    assert items[k..] == [] && out + [] == out;
    r := Ok(out);
  }

  /**
   * `crear_chunks_enriquecidos(texto, analisis, entry_id)`. `chunked` is what
   * `chunkear_con_llm` produced, None when it raised: that failure is
   * re-raised, there is no fallback.
   */
  method EnrichWithoutFallback(chunked: Option<Json>, analisis: Obj, entryId: string) returns (r: Result<seq<Obj>, EnrichError>)
    ensures chunked.None? ==> r == Err(ChunkingFailed)
    ensures chunked.Some? && Iterate(chunked.value).None? ==> r == Err(MalformedChunk)
    ensures chunked.Some? && Iterate(chunked.value).Some? ==> r == EnrichAll(Iterate(chunked.value).value, analisis, entryId)
  {
    if chunked.None? {
      return Err(ChunkingFailed);
    }
    var items := Iterate(chunked.value);
    if items.None? {
      return Err(MalformedChunk);
    }
    r := EnrichChunks(items.value, analisis, entryId);
  }

  // ---------------------------------------------------------------- the older version

  /** The entry-level analysis copied into every chunk's metadata. */
  function CopiedMetadata(analisis: Obj): (m: Obj)
    requires "fecha" in analisis
    ensures m.Keys == {"date", "emotions", "topics", "intensity", "people"}
    ensures m["date"] == analisis["fecha"]
    ensures m["emotions"] == Get(analisis, "emotions", JArr([]))
    ensures m["topics"] == Get(analisis, "topics", JArr([]))
    ensures m["intensity"] == Get(analisis, "intensity", JStr("media"))
    ensures m["people"] == Get(analisis, "people", JNull)
  {
    map[
      "date" := analisis["fecha"],
      "emotions" := Get(analisis, "emotions", JArr([])),
      "topics" := Get(analisis, "topics", JArr([])),
      "intensity" := Get(analisis, "intensity", JStr("media")),
      "people" := Get(analisis, "people", JNull)
    ]
  }

  /** The chunk at position `idx`, keyed and numbered by that position. */
  function EnrichAt(idx: nat, chunk: Obj, analisis: Obj, entryId: string): (r: Result<Obj, EnrichError>)
    ensures r.Ok? <==> "text" in chunk && chunk["text"].JStr? && "type" in chunk && "fecha" in analisis
    ensures r.Ok? ==> r.value == Record(entryId, JInt(idx), chunk["text"].s, chunk["type"], CopiedMetadata(analisis))
  {
    if "text" !in chunk || !chunk["text"].JStr? || "type" !in chunk || "fecha" !in analisis then Err(MalformedChunk)
    else
      Ok(Record(entryId, JInt(idx), chunk["text"].s, chunk["type"], CopiedMetadata(analisis)))
  }

  /** `EnrichAt` for one entry's analysis and id, as a function of the position and the chunk. */
  function EnrichAtFn(analisis: Obj, entryId: string): (nat, Obj) -> Result<Obj, EnrichError> {
    (idx: nat, chunk: Obj) => EnrichAt(idx, chunk, analisis, entryId)
  }

  function EnrichFrom(from: nat, chunks: seq<Obj>, analisis: Obj, entryId: string): Result<seq<Obj>, EnrichError> {
    MapIndexed(from, chunks, EnrichAtFn(analisis, entryId))
  }

  lemma EnrichFromStep(from: nat, chunks: seq<Obj>, analisis: Obj, entryId: string)
    requires chunks != []
    ensures var one := EnrichAt(from, chunks[0], analisis, entryId);
      EnrichFrom(from, chunks, analisis, entryId)
      == if one.Err? then Err(one.error) else Prepend([one.value], EnrichFrom(from + 1, chunks[1..], analisis, entryId))
  {
  }

  /** The older `crear_chunks_enriquecidos` loop over `enumerate(chunks)`. */
  method EnrichByPosition(chunks: seq<Obj>, analisis: Obj, entryId: string) returns (r: Result<seq<Obj>, EnrichError>)
    ensures r == EnrichFrom(0, chunks, analisis, entryId)
  {
    var out: seq<Obj> := [];
    var idx := 0;
    assert chunks[0..] == chunks;
    PrependNothing(EnrichFrom(0, chunks, analisis, entryId));
    while idx < |chunks|
      invariant 0 <= idx <= |chunks|
      invariant EnrichFrom(0, chunks, analisis, entryId) == Prepend(out, EnrichFrom(idx, chunks[idx..], analisis, entryId))
    {
      assert chunks[idx..][0] == chunks[idx] && chunks[idx..][1..] == chunks[idx + 1..];
      EnrichFromStep(idx, chunks[idx..], analisis, entryId);
      var one := EnrichAt(idx, chunks[idx], analisis, entryId);
      if one.Err? {
        return Err(one.error);
      }
      PrependTwice(out, one.value, EnrichFrom(idx + 1, chunks[idx + 1..], analisis, entryId));
      out := out + [one.value];
      idx := idx + 1;
    }
    assert chunks[idx..] == [] && out + [] == out;
    r := Ok(out);
  }

  /**
   * The records are numbered `0..n-1` by position, keep each chunk's text and
   * type, and carry the entry's date, emotions, topics, intensity and people.
   */
  lemma EnrichFromPositional(from: nat, chunks: seq<Obj>, analisis: Obj, entryId: string)
    requires EnrichFrom(from, chunks, analisis, entryId).Ok?
    ensures var r := EnrichFrom(from, chunks, analisis, entryId).value;
      |r| == |chunks|
      && forall k :: 0 <= k < |chunks| ==>
        && r[k].Keys == RecordKeys && "text" in chunks[k] && "type" in chunks[k]
        && r[k]["index"] == JInt(from + k)
        && r[k]["chunk_id"] == JStr(ChunkId(entryId, JInt(from + k)))
        && r[k]["text"] == chunks[k]["text"]
        && r[k]["type"] == chunks[k]["type"]
        && r[k]["metadata"] == JObj(CopiedMetadata(analisis))
  {
    MapIndexedPointwise(from, chunks, EnrichAtFn(analisis, entryId));
    var r := EnrichFrom(from, chunks, analisis, entryId).value;
    forall k | 0 <= k < |chunks|
      ensures && r[k].Keys == RecordKeys && "text" in chunks[k] && "type" in chunks[k]
        && r[k]["index"] == JInt(from + k)
        && r[k]["chunk_id"] == JStr(ChunkId(entryId, JInt(from + k)))
        && r[k]["text"] == chunks[k]["text"]
        && r[k]["type"] == chunks[k]["type"]
        && r[k]["metadata"] == JObj(CopiedMetadata(analisis))
    {
      EnrichAtFields(from + k, chunks[k], analisis, entryId);
    }
  }

  lemma EnrichAtFields(idx: nat, chunk: Obj, analisis: Obj, entryId: string)
    requires EnrichAt(idx, chunk, analisis, entryId).Ok?
    ensures var r := EnrichAt(idx, chunk, analisis, entryId).value;
      && r.Keys == RecordKeys && "text" in chunk && "type" in chunk
      && r["index"] == JInt(idx)
      && r["chunk_id"] == JStr(ChunkId(entryId, JInt(idx)))
      && r["text"] == chunk["text"]
      && r["type"] == chunk["type"]
      && r["metadata"] == JObj(CopiedMetadata(analisis))
  {
  }

  /** Positional numbering makes every chunk id of one entry distinct. */
  lemma ChunkIdsDistinct(chunks: seq<Obj>, analisis: Obj, entryId: string)
    requires EnrichFrom(0, chunks, analisis, entryId).Ok?
    ensures var r := EnrichFrom(0, chunks, analisis, entryId).value;
      forall i, j :: 0 <= i < j < |r| ==> "chunk_id" in r[i] && "chunk_id" in r[j] && r[i]["chunk_id"] != r[j]["chunk_id"]
  {
    var r := EnrichFrom(0, chunks, analisis, entryId).value;
    var ids := seq(|r|, k requires 0 <= k < |r| => ChunkId(entryId, JInt(k)));
    EnrichFromPositional(0, chunks, analisis, entryId);
    assert forall k :: 0 <= k < |r| ==> "chunk_id" in r[k] && r[k]["chunk_id"] == JStr(ids[k]);
    forall i, j | 0 <= i < j < |r| ensures ids[i] != ids[j] {
      if ids[i] == ids[j] {
        ChunkIdInjective(entryId, i, j);
      }
    }
  }

}
