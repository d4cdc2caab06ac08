/**
 * The journal service of the web back end: entries live in a database
 * (one `JournalEntry` per date, at most one `EntryAnalysis` per entry, any
 * number of `EntryChunk` rows), and the background task that analyses an
 * entry also appends to the legacy history and chunk files and rebuilds the
 * vector index from the whole chunk corpus. The database tables are maps and
 * sequences; the model's reply, the chunker's outcome, `json.loads` and the
 * encoder are parameters.
 */
module DiaryService {
  import opened Wrappers
  import opened Text
  import opened Json
  import opened Calendar
  import opened Seqs
  import opened Ids
  import opened Extract
  import Enrich
  import opened LegacyFiles
  import opened VectorIndex

  /** A `JournalEntry` row; `id` is its primary key, the date (the map key) is unique. */
  datatype EntryRow = EntryRow(id: nat, rawText: string, wordCount: nat, charCount: nat)

  /** An `EntryAnalysis` row; the table is keyed by the entry id, which is unique. */
  datatype AnalysisRow = AnalysisRow(summary: Json, intensity: Json, emotions: Json, topics: Json, people: Json)

  /** An `EntryChunk` row, holding what the enriched chunk held under each key. */
  datatype ChunkRow = ChunkRow(entryId: nat, index: Json, chunkType: Json, text: Json, wordCount: Json, charCount: Json, metadata: Json)

  /** Where `process_diary_entry` stopped; every exception is logged and swallowed. */
  datatype Stage =
    | StoppedAtAnalysis    // the model call raised, or no JSON could be decoded from its reply
    | StoppedAtIdentifier  // `date_str.split("-")` does not give exactly three fields
    | StoppedAtAnnotation  // the decoded analysis is not an object, so the item assignments raise
    | StoppedAtChunking    // `crear_chunks_enriquecidos` raised
    | StoppedAtDate        // `strptime(date_str, "%Y-%m-%d")` raised
    | StoppedAtHistory     // `guardar_analisis` raised
    | StoppedAtCorpus      // the chunk file holds JSON that is not a list: no `extend`
    | StoppedAtIndex       // re-indexing the corpus raised
    | Completed

  /** What the task computes before it touches any store. */
  datatype Plan = Plan(entryId: string, analysis: Obj, chunks: seq<Obj>, day: Date)

  /** The four files the legacy steps write. */
  datatype Files = Files(history: StoredJson, corpus: StoredJson, indexFile: Option<seq<Vector>>, metadataFile: Option<seq<Json>>)

  // ---------------------------------------------------------------- the pure part of the task

  /** `json.loads(reply)`, falling back to `json.loads(extraer_json_de_respuesta(reply))`. */
  function DecodeAnalysis(reply: Option<string>, parse: string -> Option<Json>): Option<Json> {
    if reply.None? then None
    else if parse(reply.value).Some? then parse(reply.value)
    else
      match ExtractJson(reply.value)
      case Err(_) => None
      case Ok(block) => parse(block)
  }

  /**
   * `y, m, d = date_str.split("-")` and `generar_id_entrada(f"{d}-{m}-{y}")`:
   * the unpacking raises unless there are exactly three fields.
   */
  function IsoEntryId(dateStr: string): (r: Option<string>)
    ensures var p := Split(dateStr, '-');
      (r.Some? <==> |p| == 3) && (r.Some? ==> r.value == "entry_" + p[0] + "_" + p[1] + "_" + p[2])
  {
    var p := Split(dateStr, '-');
    if |p| != 3 then None
    else
      EntryIdOfFields(p[2], p[1], p[0]);
      EntryId(p[2] + "-" + p[1] + "-" + p[0])
  }

  /** The web service names an entry exactly as the folder pipeline names the file of the same day. */
  lemma IsoEntryIdMatchesFileId(d: Date)
    requires ValidDate(d)
    ensures IsoEntryId(IsoFormat(d)) == EntryId(DmyFormat(d))
    ensures IsoEntryId(IsoFormat(d)) == Some("entry_" + PadNat(d.year, 4) + "_" + PadNat(d.month, 2) + "_" + PadNat(d.day, 2))
  {
    var y, m, dd := PadNat(d.year, 4), PadNat(d.month, 2), PadNat(d.day, 2);
    NoDash(y); NoDash(m); NoDash(dd);
    SplitThree(y, m, dd, '-');
    EntryIdOfFields(dd, m, y);
  }

  /** The fields the task writes into the analysis before chunking. */
  function Annotated(analisis: Obj, dateStr: string, entryId: string, text: string): Obj {
    analisis["fecha" := JStr(dateStr)]["id" := JStr(entryId)]["raw_text" := JStr(text)]
      ["word_count" := JInt(|Words(text)|)]["char_count" := JInt(|text|)]
  }

  /** The fields the task has written into the analysis by the time it is stored. */
  predicate CarriesEntry(a: Obj, dateStr: string, entryId: string, text: string, chunkCount: nat) {
    && {"fecha", "id", "raw_text", "word_count", "char_count", "chunk_count"} <= a.Keys
    && a["fecha"] == JStr(dateStr) && a["id"] == JStr(entryId) && a["raw_text"] == JStr(text)
    && a["word_count"] == JInt(|Words(text)|) && a["char_count"] == JInt(|text|)
    && a["chunk_count"] == JInt(chunkCount)
  }

  /** The annotation sets those fields and keeps every other field the model returned. */
  lemma AnnotationRecorded(analisis: Obj, dateStr: string, entryId: string, text: string, n: nat)
    ensures var a := Annotated(analisis, dateStr, entryId, text)["chunk_count" := JInt(n)];
      && CarriesEntry(a, dateStr, entryId, text, n)
      && a.Keys == analisis.Keys + {"fecha", "id", "raw_text", "word_count", "char_count", "chunk_count"}
      && forall k :: k in analisis && k !in {"fecha", "id", "raw_text", "word_count", "char_count", "chunk_count"} ==> a[k] == analisis[k]
  {
  }

  /** `crear_chunks_enriquecidos(text, analisis, entry_id)`, given what the model chunker produced. */
  function ChunksOf(chunked: Option<Json>, analisis: Obj, entryId: string): Result<seq<Obj>, Enrich.EnrichError> {
    if chunked.None? then Err(Enrich.ChunkingFailed)
    else if Iterate(chunked.value).None? then Err(Enrich.MalformedChunk)
    else Enrich.EnrichAll(Iterate(chunked.value).value, analisis, entryId)
  }

  /** Steps 1 to 3 and the date parse of step 4, in the order the task runs them. */
  function Prepare(text: string, dateStr: string, reply: Option<string>, parse: string -> Option<Json>,
                   chunked: Option<Json>): (r: Result<Plan, Stage>)
    ensures r.Ok? ==> ParseIso(dateStr) == Some(r.value.day) && ValidDate(r.value.day)
    ensures r.Ok? ==> IsoEntryId(dateStr) == Some(r.value.entryId)
    ensures r.Ok? ==> CarriesEntry(r.value.analysis, dateStr, r.value.entryId, text, |r.value.chunks|)
  {
    var decoded := DecodeAnalysis(reply, parse);
    if decoded.None? then Err(StoppedAtAnalysis)
    else
      var entryId := IsoEntryId(dateStr);
      if entryId.None? then Err(StoppedAtIdentifier)
      else if !decoded.value.JObj? then Err(StoppedAtAnnotation)
      else
        var analisis := Annotated(decoded.value.fields, dateStr, entryId.value, text);
        var made := ChunksOf(chunked, analisis, entryId.value);
        if made.Err? then Err(StoppedAtChunking)
        else
          var day := ParseIso(dateStr);
          if day.None? then Err(StoppedAtDate)
          else
            AnnotationRecorded(decoded.value.fields, dateStr, entryId.value, text, |made.value|);
            Ok(Plan(entryId.value, analisis["chunk_count" := JInt(|made.value|)], made.value, day.value))
  }

  // ---------------------------------------------------------------- rows written for an existing entry

  /** `EntryAnalysis(...)` with `.get` defaults for absent keys. */
  function AnalysisRowOf(a: Obj): AnalysisRow {
    AnalysisRow(Get(a, "summary", JStr("")), Get(a, "intensity", JStr("media")), Get(a, "emotions", JArr([])),
                Get(a, "topics", JArr([])), Get(a, "people", JArr([])))
  }

  /** `EntryChunk(...)` for one enriched chunk, with `.get` defaults for absent keys. */
  function ChunkRowOf(id: nat, c: Obj): ChunkRow {
    ChunkRow(id, Get(c, "index", JInt(0)), Get(c, "type", JStr("mixto")), Get(c, "text", JStr("")),
             Get(c, "word_count", JInt(0)), Get(c, "char_count", JInt(0)), Get(c, "metadata", JObj(map[])))
  }

  function ChunkRows(id: nat, cs: seq<Obj>): seq<ChunkRow> {
    seq(|cs|, i requires 0 <= i < |cs| => ChunkRowOf(id, cs[i]))
  }

  /** `EntryChunk.entry_id == id`. */
  function OfEntry(id: nat): ChunkRow -> bool {
    (c: ChunkRow) => c.entryId == id
  }

  function NotOfEntry(id: nat): ChunkRow -> bool {
    (c: ChunkRow) => c.entryId != id
  }

  /**
   * After the replacement the entry's chunk rows are exactly the new ones, in
   * order, and every other entry keeps exactly the rows it had.
   */
  lemma {:induction false} ReplacementScope(rows: seq<ChunkRow>, id: nat, cs: seq<Obj>, other: nat)
    requires other != id
    ensures Filter(Filter(rows, NotOfEntry(id)) + ChunkRows(id, cs), OfEntry(id)) == ChunkRows(id, cs)
    ensures Filter(Filter(rows, NotOfEntry(id)) + ChunkRows(id, cs), OfEntry(other)) == Filter(rows, OfEntry(other))
  {
    var kept := Filter(rows, NotOfEntry(id));
    var added := ChunkRows(id, cs);
    FilterAppend(kept, added, OfEntry(id));
    FilterAppend(kept, added, OfEntry(other));
    forall x | x in added ensures OfEntry(id)(x) {
      var i :| 0 <= i < |added| && added[i] == x;
    }
    FilterAll(added, OfEntry(id));
    FilterNone(kept, OfEntry(id));
    forall x | x in added ensures !OfEntry(other)(x) {
      var i :| 0 <= i < |added| && added[i] == x;
    }
    FilterNone(added, OfEntry(other));
    FilterNested(rows, NotOfEntry(id), OfEntry(other));
  }

  /** Every stored date is a real day, and entry ids are below the next one handed out and distinct. */
  predicate EntryTableOk(entries: map<Date, EntryRow>, nextId: nat) {
    && (forall d :: d in entries ==> ValidDate(d) && entries[d].id < nextId)
    && (forall d, e :: d in entries && e in entries && entries[d].id == entries[e].id ==> d == e)
  }

  // ---------------------------------------------------------------- the legacy files and the index

  function AsJson(cs: seq<Obj>): (r: seq<Json>)
    ensures |r| == |cs| && forall i :: 0 <= i < |cs| ==> r[i] == JObj(cs[i])
  {
    seq(|cs|, i requires 0 <= i < |cs| => JObj(cs[i]))
  }

  /** `indexar_desde_chunks` over a corpus list: the saved index and metadata, or None where it raises. */
  function Reindexed(corpus: seq<Json>, embed: Json -> Option<Vector>): Option<Saved> {
    var texts := TextsOf(corpus);
    if texts.None? then None
    else
      var vectors := EmbedAll(texts.value, embed);
      if vectors.None? then None else Some(Saved(vectors.value, corpus))
  }

  /** Steps 4b, 5 and 6: history append, corpus append, re-index; each stops the task when it raises. */
  function LegacySteps(files: Files, analysis: Obj, chunks: seq<Obj>, embed: Json -> Option<Vector>): (Files, Stage) {
    var history := SaveAnalysis(files.history, JObj(analysis));
    if history.Err? then (files, StoppedAtHistory)
    else
      var corpus := SaveChunks(files.corpus, AsJson(chunks));
      if corpus.Err? then (files.(history := history.value), StoppedAtCorpus)
      else
        var saved := Reindexed(Items(corpus.value), embed);
        if saved.None? then (files.(history := history.value, corpus := corpus.value), StoppedAtIndex)
        else (Files(history.value, corpus.value, Some(saved.value.indexFile), Some(saved.value.metadataFile)), Completed)
  }

  /**
   * A completed run leaves the old corpus followed by the new chunks in the
   * chunk file, the history one item longer, and an index with one vector
   * per corpus chunk next to exactly that corpus as metadata.
   */
  lemma CompletedRunIndexesCorpus(files: Files, analysis: Obj, chunks: seq<Obj>, embed: Json -> Option<Vector>)
    ensures var (after, stage) := LegacySteps(files, analysis, chunks, embed);
      stage == Completed ==> (
        && Items(after.history) == Items(files.history) + [JObj(analysis)]
        && Items(after.corpus) == Items(files.corpus) + AsJson(chunks)
        && after.metadataFile == Some(Items(after.corpus))
        && after.indexFile.Some? && |after.indexFile.value| == |Items(after.corpus)|
        && forall i :: 0 <= i < |Items(after.corpus)| ==>
             after.indexFile.value[i] == embed(Items(after.corpus)[i].fields["text"]).value)
  {
  }

  /** A run that stops at the corpus or the index leaves the previous index and metadata files in place. */
  lemma FailedRunKeepsIndex(files: Files, analysis: Obj, chunks: seq<Obj>, embed: Json -> Option<Vector>)
    ensures var (after, stage) := LegacySteps(files, analysis, chunks, embed);
      stage != Completed ==> after.indexFile == files.indexFile && after.metadataFile == files.metadataFile
  {
  }

  /**
   * Processing the same entry twice (both runs completing) leaves its chunks
   * twice in the corpus, and so twice in the rebuilt index's metadata.
   */
  lemma {:induction false} ReprocessingDuplicates(files: Files, a1: Obj, a2: Obj, chunks: seq<Obj>, embed: Json -> Option<Vector>)
    requires LegacySteps(files, a1, chunks, embed).1 == Completed
    requires LegacySteps(LegacySteps(files, a1, chunks, embed).0, a2, chunks, embed).1 == Completed
    ensures var twice := LegacySteps(LegacySteps(files, a1, chunks, embed).0, a2, chunks, embed).0;
      twice.metadataFile == Some(Items(files.corpus) + AsJson(chunks) + AsJson(chunks))
  {
    var once := LegacySteps(files, a1, chunks, embed).0;
    assert once.corpus == SaveChunks(files.corpus, AsJson(chunks)).value;
    SaveChunksTwice(files.corpus, AsJson(chunks), AsJson(chunks));
  }

  // ---------------------------------------------------------------- the service

  /** The loop deleting an entry's chunk rows: the rows of other entries, in order. */
  method KeptRows(rows: seq<ChunkRow>, id: nat) returns (kept: seq<ChunkRow>)
    ensures kept == Filter(rows, NotOfEntry(id))
  {
    kept := [];
    var k := 0;
    while k < |rows|
      invariant 0 <= k <= |rows|
      invariant kept == Filter(rows[..k], NotOfEntry(id))
    {
      assert rows[..k + 1] == rows[..k] + [rows[k]];
      FilterSnoc(rows[..k], rows[k], NotOfEntry(id));
      if rows[k].entryId != id {
        kept := kept + [rows[k]];
      }
      k := k + 1;
    }
    assert rows[..k] == rows;
  }

  /** The loop adding an entry's new chunk rows after `base`, in order. */
  method AppendRows(base: seq<ChunkRow>, id: nat, newChunks: seq<Obj>) returns (rows: seq<ChunkRow>)
    ensures rows == base + ChunkRows(id, newChunks)
  {
    rows := base;
    var j := 0;
    while j < |newChunks|
      invariant 0 <= j <= |newChunks|
      invariant rows == base + ChunkRows(id, newChunks[..j])
    {
      assert ChunkRows(id, newChunks[..j + 1]) == ChunkRows(id, newChunks[..j]) + [ChunkRowOf(id, newChunks[j])];
      rows := rows + [ChunkRowOf(id, newChunks[j])];
      j := j + 1;
    }
    assert newChunks[..j] == newChunks;
  }

  class JournalService {
    /** The `JournalEntry` table by date. */
    var entries: map<Date, EntryRow>
    /** The `EntryAnalysis` table by entry id. */
    var analyses: map<nat, AnalysisRow>
    /** The `EntryChunk` table in insertion order. */
    var chunks: seq<ChunkRow>
    /** The next primary key the entry table hands out. */
    var nextId: nat
    /** `RAW_DIARY_JSON`, `CHUNKS_FILE`, `FAISS_INDEX_FILE` and `METADATA_FILE`. */
    var files: Files

    /** Every stored date is a real day and entry ids are fresh and distinct. */
    predicate Valid()
      reads this
    {
      EntryTableOk(entries, nextId)
    }

    /** An empty database next to existing files. */
    constructor(files: Files)
      ensures entries == map[] && analyses == map[] && chunks == [] && nextId == 0 && this.files == files
      ensures Valid()
    {
      entries := map[];
      analyses := map[];
      chunks := [];
      nextId := 0;
      this.files := files;
    }

    /** `read_entry(date_str)`: None for a date strptime rejects and for a day without an entry. */
    function ReadEntry(dateStr: string): (r: Option<Obj>)
      reads this
      ensures r.Some? <==> ParseIso(dateStr).Some? && ParseIso(dateStr).value in entries
      ensures r.Some? ==> var row := entries[ParseIso(dateStr).value];
        && r.value.Keys == {"date", "text", "word_count", "char_count"}
        && r.value["date"] == JStr(IsoFormat(ParseIso(dateStr).value))
        && r.value["text"] == JStr(row.rawText)
        && r.value["word_count"] == JInt(row.wordCount) && r.value["char_count"] == JInt(row.charCount)
    {
      var day := ParseIso(dateStr);
      if day.None? || day.value !in entries then None
      else
        var row := entries[day.value];
        Some(map["date" := JStr(IsoFormat(day.value)), "text" := JStr(row.rawText),
                 "word_count" := JInt(row.wordCount), "char_count" := JInt(row.charCount)])
    }

    /**
     * `save_entry(text, date_str)`: an empty date means today; a date strptime
     * rejects raises before anything changes. The day's row is overwritten or
     * inserted with a fresh id, and reading the returned date gives the text back.
     */
    method SaveEntry(text: string, dateStr: string, today: Date) returns (r: Result<string, ()>)
      requires Valid() && ValidDate(today)
      modifies this
      ensures Valid()
      ensures r.Err? <==> dateStr != [] && ParseIso(dateStr).None?
      ensures r.Err? ==> unchanged(this)
      ensures r.Ok? ==> (
        var day := if dateStr == [] then today else ParseIso(dateStr).value;
        var id := if day in old(entries) then old(entries)[day].id else old(nextId);
        && r.value == IsoFormat(day)
        && entries == old(entries)[day := EntryRow(id, text, |Words(text)|, |text|)]
        && nextId == (if day in old(entries) then old(nextId) else old(nextId) + 1)
        && analyses == old(analyses) && chunks == old(chunks) && files == old(files))
      ensures r.Ok? ==> ReadEntry(r.value) == Some(map["date" := JStr(r.value), "text" := JStr(text),
        "word_count" := JInt(|Words(text)|), "char_count" := JInt(|text|)])
    {
      var day: Date;
      if dateStr != [] {
        var parsed := ParseIso(dateStr);
        if parsed.None? {
          return Err(());
        }
        day := parsed.value;
      } else {
        day := today;
      }
      Upsert(day, text);
      r := Ok(IsoFormat(day));
    }

    /** The session step of `save_entry`: the day's row is overwritten, or inserted with a fresh id. */
    method Upsert(day: Date, text: string)
      requires Valid() && ValidDate(day)
      modifies this
      ensures Valid()
      ensures var id := if day in old(entries) then old(entries)[day].id else old(nextId);
        && entries == old(entries)[day := EntryRow(id, text, |Words(text)|, |text|)]
        && nextId == (if day in old(entries) then old(nextId) else old(nextId) + 1)
        && analyses == old(analyses) && chunks == old(chunks) && files == old(files)
      ensures ReadEntry(IsoFormat(day)) == Some(map["date" := JStr(IsoFormat(day)), "text" := JStr(text),
        "word_count" := JInt(|Words(text)|), "char_count" := JInt(|text|)])
    {
      if day in entries {
        var existing := entries[day];
        entries := entries[day := EntryRow(existing.id, text, |Words(text)|, |text|)];
      } else {
        entries := entries[day := EntryRow(nextId, text, |Words(text)|, |text|)];
        nextId := nextId + 1;
      }
      ParseIsoFormat(day);
    }

    /** `list_entries()`: the ISO dates of all entries, latest first. */
    method ListEntries() returns (r: seq<string>, ghost days: seq<Date>)
      requires Valid()
      ensures forall d :: d in days <==> d in entries
      ensures forall i, j :: 0 <= i < j < |days| ==> DateLe(days[j], days[i]) && days[i] != days[j]
      ensures |r| == |days| == |entries|
      ensures forall i :: 0 <= i < |r| ==> ValidDate(days[i]) && r[i] == IsoFormat(days[i])
    {
      var sorted: seq<Date> := [];
      var rest := entries.Keys;
      while rest != {}
        invariant rest <= entries.Keys
        invariant forall d :: d in sorted <==> d in entries && d !in rest
        invariant Descending(sorted)
        invariant |sorted| + |rest| == |entries|
        decreases |rest|
      {
        var d :| d in rest;
        sorted := InsertDescending(d, sorted);
        rest := rest - {d};
      }
      assert entries.Keys == set d | d in sorted;
      DescendingDistinct(sorted);
      days := sorted;
      r := [];
      var k := 0;
      while k < |sorted|
        invariant 0 <= k <= |sorted| && |r| == k
        invariant forall i :: 0 <= i < k ==> ValidDate(sorted[i]) && r[i] == IsoFormat(sorted[i])
      {
        assert sorted[k] in entries;
        r := r + [IsoFormat(sorted[k])];
        k := k + 1;
      }
    }

    /** The analysis and chunk rows of one existing entry are replaced, in one commit. */
    method ReplaceRows(id: nat, analysis: Obj, newChunks: seq<Obj>)
      modifies this
      ensures analyses == old(analyses)[id := AnalysisRowOf(analysis)]
      ensures chunks == Filter(old(chunks), NotOfEntry(id)) + ChunkRows(id, newChunks)
      ensures entries == old(entries) && nextId == old(nextId) && files == old(files)
    {
      var kept := KeptRows(chunks, id);
      kept := AppendRows(kept, id, newChunks);
      analyses := analyses[id := AnalysisRowOf(analysis)];
      chunks := kept;
    }

    /**
     * `process_diary_entry(text, date_str)`. `reply` is the model's analysis
     * (None where the call raised), `chunked` the model chunker's result, and
     * `parse` and `embed` stand for `json.loads` and the encoder. Nothing
     * changes until the plan is complete; the entry's database rows are
     * replaced only when the entry exists; the legacy files are written
     * whether it exists or not.
     */
    method ProcessDiaryEntry(text: string, dateStr: string, reply: Option<string>, parse: string -> Option<Json>,
                             chunked: Option<Json>, embed: Json -> Option<Vector>) returns (stage: Stage)
      requires Valid()
      modifies this
      ensures Valid()
      ensures entries == old(entries) && nextId == old(nextId)
      ensures var plan := Prepare(text, dateStr, reply, parse, chunked);
        plan.Err? ==> stage == plan.error && unchanged(this)
      ensures var plan := Prepare(text, dateStr, reply, parse, chunked);
        plan.Ok? ==> (
          && (files, stage) == LegacySteps(old(files), plan.value.analysis, plan.value.chunks, embed)
          && (plan.value.day !in old(entries) ==> analyses == old(analyses) && chunks == old(chunks))
          && (plan.value.day in old(entries) ==> (
                var id := old(entries)[plan.value.day].id;
                && analyses == old(analyses)[id := AnalysisRowOf(plan.value.analysis)]
                && chunks == Filter(old(chunks), NotOfEntry(id)) + ChunkRows(id, plan.value.chunks))))
    {
      var plan := Prepare(text, dateStr, reply, parse, chunked);
      // 1. analysis
      var decoded := DecodeAnalysis(reply, parse);
      if decoded.None? {
        return StoppedAtAnalysis;
      }
      // 2. identifiers and annotation
      var entryId := IsoEntryId(dateStr);
      if entryId.None? {
        return StoppedAtIdentifier;
      }
      if !decoded.value.JObj? {
        return StoppedAtAnnotation;
      }
      var analisis := Annotated(decoded.value.fields, dateStr, entryId.value, text);
      // 3. chunks
      var made := Enrich.EnrichWithoutFallback(chunked, analisis, entryId.value);
      assert made == ChunksOf(chunked, analisis, entryId.value);
      if made.Err? {
        return StoppedAtChunking;
      }
      analisis := analisis["chunk_count" := JInt(|made.value|)];
      // 4. database
      var day := ParseIso(dateStr);
      if day.None? {
        return StoppedAtDate;
      }
      assert plan == Ok(Plan(entryId.value, analisis, made.value, day.value));
      if day.value in entries {
        ReplaceRows(entries[day.value].id, analisis, made.value);
      }
      stage := WriteLegacyFiles(analisis, made.value, embed);
    }

    /** Steps 4b to 6: append to the history and the corpus, then rebuild the index from the corpus. */
    method WriteLegacyFiles(analysis: Obj, newChunks: seq<Obj>, embed: Json -> Option<Vector>) returns (stage: Stage)
      modifies this
      ensures (files, stage) == LegacySteps(old(files), analysis, newChunks, embed)
      ensures entries == old(entries) && nextId == old(nextId) && analyses == old(analyses) && chunks == old(chunks)
    {
      // 4b. history
      var history := SaveAnalysis(files.history, JObj(analysis));
      if history.Err? {
        return StoppedAtHistory;
      }
      files := files.(history := history.value);
      // 5. corpus
      var corpus := SaveChunks(files.corpus, AsJson(newChunks));
      if corpus.Err? {
        return StoppedAtCorpus;
      }
      files := files.(corpus := corpus.value);
      // 6. index
      var indexer := new VectorIndexer();
      var saved := indexer.IndexFromChunks(Some(corpus.value.value), embed);
      if saved.Err? {
        return StoppedAtIndex;
      }
      files := files.(indexFile := Some(saved.value.indexFile), metadataFile := Some(saved.value.metadataFile));
      stage := Completed;
    }
  }

  // ---------------------------------------------------------------- the date order of the listing

  predicate Descending(ds: seq<Date>) {
    forall i, j :: 0 <= i < j < |ds| ==> DateLe(ds[j], ds[i]) && ds[j] != ds[i]
  }

  /** `d` placed before the first day earlier than it. */
  function InsertDescending(d: Date, ds: seq<Date>): (r: seq<Date>)
    requires Descending(ds) && d !in ds
    ensures forall x :: x in r <==> x == d || x in ds
    ensures |r| == |ds| + 1
    ensures Descending(r)
  {
    if ds == [] || DateLe(ds[0], d) then
      assert forall x :: x in ds ==> DateLe(x, d) && x != d by {
        forall x | x in ds ensures DateLe(x, d) && x != d {
          var i :| 0 <= i < |ds| && ds[i] == x;
          assert i == 0 || DateLe(ds[i], ds[0]);
        }
      }
      DescendingCons(d, ds);
      [d] + ds
    else
      assert ds == [ds[0]] + ds[1..];
      var rest := InsertDescending(d, ds[1..]);
      assert forall x :: x in rest ==> DateLe(x, ds[0]) && x != ds[0] by {
        forall x | x in rest ensures DateLe(x, ds[0]) && x != ds[0] {
          if x != d {
            var i :| 1 <= i < |ds| && ds[i] == x;
          }
        }
      }
      DescendingCons(ds[0], rest);
      [ds[0]] + rest
  }

  lemma DescendingCons(d: Date, ds: seq<Date>)
    requires Descending(ds)
    requires forall x :: x in ds ==> DateLe(x, d) && x != d
    ensures Descending([d] + ds)
  {
    var r := [d] + ds;
    forall i, j | 0 <= i < j < |r| ensures DateLe(r[j], r[i]) && r[j] != r[i] {
      assert r[j] == ds[j - 1] && r[j] in ds;
      if i > 0 {
        assert r[i] == ds[i - 1];
      }
    }
  }

  lemma DescendingDistinct(ds: seq<Date>)
    requires Descending(ds)
    ensures |set d | d in ds| == |ds|
  {
    if ds != [] {
      DescendingDistinct(ds[1..]);
      assert (set d | d in ds) == (set d | d in ds[1..]) + {ds[0]};
    }
  }
}
