/**
 * The two append-only JSON files of the original pipeline: the analysis
 * history (`diario.json`, written by `guardar_analisis`) and the chunk corpus
 * (`diario_chunks.json`, written by `guardar_chunks` and by the service's
 * legacy step). A file is seen as the loaders see it; writing a list and
 * reading it back is taken to give the same list.
 */
module LegacyFiles {
  import opened Wrappers
  import opened Json

  /** A JSON file as found on disk. */
  datatype StoredJson =
    | Missing            // the path does not exist
    | Blank              // it exists and holds only whitespace
    | Garbage            // it exists and is not valid JSON (or cannot be read)
    | Holds(value: Json) // it parses to `value`

  /** FileReadError and JSONParseError; either aborts the save and leaves the file as it was. */
  datatype FileError = NotAList | Unparseable

  /** The list a file holds; everything that is not a list holds none. */
  function Items(f: StoredJson): seq<Json> {
    if f.Holds? && f.value.JArr? then f.value.items else []
  }

  /** `cargar_historial_diario`: missing or blank gives `[]`; bad JSON or a non-list raises. */
  function LoadHistory(f: StoredJson): (r: Result<seq<Json>, FileError>)
    ensures r.Ok? <==> !f.Garbage? && !(f.Holds? && !f.value.JArr?)
    ensures r.Ok? ==> r.value == Items(f)
  {
    match f
    case Missing => Ok([])
    case Blank => Ok([])
    case Garbage => Err(Unparseable)
    case Holds(v) => if v.JArr? then Ok(v.items) else Err(NotAList)
  }

  /** `guardar_analisis`: load the history, append one analysis, write the list back. */
  function SaveAnalysis(f: StoredJson, analisis: Json): (r: Result<StoredJson, FileError>)
    ensures r.Ok? <==> LoadHistory(f).Ok?
    ensures r.Ok? ==> r.value.Holds? && r.value.value.JArr? && Items(r.value) == Items(f) + [analisis]
  {
    var history :- LoadHistory(f);
    Ok(Holds(JArr(history + [analisis])))
  }

  /**
   * What the chunk loader starts from: the parsed content when the file has
   * any, `[]` when it is missing or blank, and also `[]` when it does not
   * parse (that exception is caught and logged).
   */
  function ExistingChunks(f: StoredJson): Json {
    if f.Holds? then f.value else JArr([])
  }

  /**
   * `guardar_chunks`, and the same steps in the service's legacy corpus update:
   * the existing list is extended by the new chunks and written back; a
   * content that parses to something other than a list has no `extend`.
   */
  function SaveChunks(f: StoredJson, chunks: seq<Json>): (r: Result<StoredJson, FileError>)
    ensures r.Ok? <==> !(f.Holds? && !f.value.JArr?)
    ensures r.Ok? ==> r.value.Holds? && r.value.value.JArr? && Items(r.value) == Items(f) + chunks
  {
    var existing := ExistingChunks(f);
    if existing.JArr? then Ok(Holds(JArr(existing.items + chunks))) else Err(NotAList)
  }

  /** Saving never loses what a readable file held: the old list is a prefix of the new one. */
  lemma SavesOnlyAppend(f: StoredJson, analisis: Json, chunks: seq<Json>)
    ensures SaveAnalysis(f, analisis).Ok? ==> Items(f) <= Items(SaveAnalysis(f, analisis).value)
    ensures SaveChunks(f, chunks).Ok? ==> Items(f) <= Items(SaveChunks(f, chunks).value)
  {
  }

  /** A corpus that does not parse is silently replaced by the new chunks alone. */
  lemma UnreadableCorpusReplaced(chunks: seq<Json>)
    ensures SaveChunks(Garbage, chunks) == Ok(Holds(JArr(chunks)))
  {
    assert [] + chunks == chunks;
  }

  /** An unreadable history aborts the save, so the analysis is not recorded. */
  lemma UnreadableHistoryKept(analisis: Json)
    ensures SaveAnalysis(Garbage, analisis) == Err(Unparseable)
  {
  }

  /**
   * Two saves in a row equal one save of both batches; in particular saving
   * the chunks of the same entry twice leaves two copies of each.
   */
  lemma {:induction false} SaveChunksTwice(f: StoredJson, a: seq<Json>, b: seq<Json>)
    requires SaveChunks(f, a).Ok?
    ensures SaveChunks(SaveChunks(f, a).value, b) == SaveChunks(f, a + b)
    ensures Items(SaveChunks(SaveChunks(f, a).value, b).value) == Items(f) + a + b
  {
    var g := SaveChunks(f, a).value;
    assert ExistingChunks(g) == JArr(Items(f) + a);
    assert Items(f) + a + b == Items(f) + (a + b);
    if f.Holds? {
      assert ExistingChunks(f) == JArr(Items(f));
    }
  }
}
