/**
 * `migrate()`: the one-off import of the file-based journal into the
 * database, in three phases, each committed on its own. Entries come from
 * the Markdown files, analyses from the history file, chunks from the chunk
 * corpus; every phase skips what the database already holds, so the first
 * source for a date (or an entry and chunk index) wins.
 */
module Migration {
  import opened Wrappers
  import opened Text
  import opened Json
  import opened Calendar
  import opened Ids
  import opened LegacyFiles
  import opened DiaryService

  /** One `*.md` file of the entries folder: its stem and its text, None where reading raised. */
  datatype MdFile = MdFile(stem: string, content: Option<string>)

  /** The database tables the migration writes. */
  datatype Tables = Tables(entries: map<Date, EntryRow>, nextId: nat, analyses: map<nat, AnalysisRow>, chunks: seq<ChunkRow>)

  /**
   * How far the script got. A phase that raises ends the script; its own
   * uncommitted rows are rolled back, the earlier phases stay committed.
   */
  datatype MigrationOutcome = Migrated | StoppedAtAnalyses | StoppedAtChunks

  /**
   * The key the chunk phase looks an existing row up by: as written it is
   * `c.get("index")`, None when the chunk has no index, while the row it
   * inserts stores `c.get("index", 0)`.
   */
  datatype IndexLookup = AsWritten | Defaulted

  function LookupIndex(lookup: IndexLookup, c: Obj): Json {
    match lookup
    case AsWritten => Get(c, "index", JNull)
    case Defaulted => Get(c, "index", JInt(0))
  }

  // ---------------------------------------------------------------- phase 1: entries

  /** The stem as `%Y-%m-%d`, else as `%d-%m-%Y`; a stem matching neither is skipped. */
  function StemDay(f: MdFile): Option<Date> {
    ParseEither(f.stem)
  }

  /** A file the entry phase imports unless its day is already present. */
  predicate Importable(f: MdFile) {
    StemDay(f).Some? && f.content.Some?
  }

  function AddEntry(entries: map<Date, EntryRow>, nextId: nat, f: MdFile): (map<Date, EntryRow>, nat) {
    if !Importable(f) || StemDay(f).value in entries then (entries, nextId)
    else
      var text := f.content.value;
      (entries[StemDay(f).value := EntryRow(nextId, text, |Words(text)|, |text|)], nextId + 1)
  }

  /** The entry loop over the files, in the order the folder listing gives them. */
  function EntriesPhase(entries: map<Date, EntryRow>, nextId: nat, fs: seq<MdFile>): (map<Date, EntryRow>, nat)
    decreases |fs|
  {
    if fs == [] then (entries, nextId)
    else
      var before := EntriesPhase(entries, nextId, fs[..|fs| - 1]);
      AddEntry(before.0, before.1, fs[|fs| - 1])
  }

  /** One file: an existing entry stays as it was, and the table stays well formed. */
  lemma AddEntryKeeps(entries: map<Date, EntryRow>, nextId: nat, f: MdFile)
    requires EntryTableOk(entries, nextId)
    ensures var (e, n) := AddEntry(entries, nextId, f);
      && EntryTableOk(e, n)
      && (forall d :: d in entries ==> d in e && e[d] == entries[d])
      && (Importable(f) ==> StemDay(f).value in e)
  {
  }

  /**
   * An existing entry is never overwritten, every importable file's day ends
   * up present, and the table stays well formed.
   */
  lemma {:induction false} EntriesPhaseKeeps(entries: map<Date, EntryRow>, nextId: nat, fs: seq<MdFile>)
    requires EntryTableOk(entries, nextId)
    ensures var (e, n) := EntriesPhase(entries, nextId, fs);
      && EntryTableOk(e, n)
      && (forall d :: d in entries ==> d in e && e[d] == entries[d])
      && (forall i :: 0 <= i < |fs| && Importable(fs[i]) ==> StemDay(fs[i]).value in e)
    decreases |fs|
  {
    if fs != [] {
      var init := fs[..|fs| - 1];
      EntriesPhaseKeeps(entries, nextId, init);
      var (e, n) := EntriesPhase(entries, nextId, init);
      AddEntryKeeps(e, n, fs[|fs| - 1]);
      assert forall i :: 0 <= i < |fs| - 1 ==> fs[i] == init[i];
    }
  }

  /** Once every importable file's day is present, the entry phase changes nothing. */
  lemma {:induction false} EntriesPhaseStable(entries: map<Date, EntryRow>, nextId: nat, fs: seq<MdFile>)
    requires forall i :: 0 <= i < |fs| && Importable(fs[i]) ==> StemDay(fs[i]).value in entries
    ensures EntriesPhase(entries, nextId, fs) == (entries, nextId)
    decreases |fs|
  {
    if fs != [] {
      var init := fs[..|fs| - 1];
      assert forall i :: 0 <= i < |init| ==> init[i] == fs[i];
      EntriesPhaseStable(entries, nextId, init);
    }
  }

  // ---------------------------------------------------------------- phase 2: analyses

  /** The day an analysis item names: a truthy `fecha` that is a string and parses. */
  function ItemDay(item: Obj): Option<Date> {
    var fecha := Get(item, "fecha", JNull);
    if !Truthy(fecha) || !fecha.JStr? then None else ParseEither(fecha.s)
  }

  /** An analysis item whose entry exists. */
  predicate Attaches(entries: map<Date, EntryRow>, item: Obj) {
    ItemDay(item).Some? && ItemDay(item).value in entries
  }

  function AddAnalysis(analyses: map<nat, AnalysisRow>, entries: map<Date, EntryRow>, item: Obj): map<nat, AnalysisRow> {
    if !Attaches(entries, item) || entries[ItemDay(item).value].id in analyses then analyses
    else analyses[entries[ItemDay(item).value].id := AnalysisRowOf(item)]
  }

  /**
   * The analysis loop. An item that is not a dict makes the error handler's
   * own `item.get` raise, which ends the script and rolls the phase back (None).
   */
  function AnalysesPhase(analyses: map<nat, AnalysisRow>, entries: map<Date, EntryRow>, items: seq<Json>): Option<map<nat, AnalysisRow>>
    decreases |items|
  {
    if items == [] then Some(analyses)
    else
      var before := AnalysesPhase(analyses, entries, items[..|items| - 1]);
      var item := items[|items| - 1];
      if before.None? || !item.JObj? then None
      else Some(AddAnalysis(before.value, entries, item.fields))
  }

  /** The history as the script loads it: absent is no items; blank or bad JSON, or a non-iterable value, raises. */
  function HistoryItems(f: StoredJson): Option<seq<Json>> {
    match f
    case Missing => Some([])
    case Blank => None
    case Garbage => None
    case Holds(v) => Iterate(v)
  }

  /**
   * The analysis phase fails exactly when some item is not a dict; otherwise
   * existing analyses stay, and every item that attaches to an entry leaves
   * that entry with an analysis.
   */
  lemma {:induction false} AnalysesPhaseKeeps(analyses: map<nat, AnalysisRow>, entries: map<Date, EntryRow>, items: seq<Json>)
    ensures var r := AnalysesPhase(analyses, entries, items);
      && (r.None? <==> exists i :: 0 <= i < |items| && !items[i].JObj?)
      && (r.Some? ==> forall id :: id in analyses ==> id in r.value && r.value[id] == analyses[id])
      && (r.Some? ==> forall i :: 0 <= i < |items| && Attaches(entries, items[i].fields) ==>
            entries[ItemDay(items[i].fields).value].id in r.value)
    decreases |items|
  {
    if items != [] {
      var init := items[..|items| - 1];
      AnalysesPhaseKeeps(analyses, entries, init);
      assert forall i :: 0 <= i < |init| ==> init[i] == items[i];
      var last := items[|items| - 1];
      if !last.JObj? {
        assert !items[|items| - 1].JObj?;
      }
    }
  }

  /** With an analysis already present for every attaching item, the phase changes nothing. */
  lemma {:induction false} AnalysesPhaseStable(analyses: map<nat, AnalysisRow>, entries: map<Date, EntryRow>, items: seq<Json>)
    requires forall i :: 0 <= i < |items| ==> items[i].JObj?
    requires forall i :: 0 <= i < |items| && Attaches(entries, items[i].fields) ==>
      entries[ItemDay(items[i].fields).value].id in analyses
    ensures AnalysesPhase(analyses, entries, items) == Some(analyses)
    decreases |items|
  {
    if items != [] {
      var init := items[..|items| - 1];
      assert forall i :: 0 <= i < |init| ==> init[i] == items[i];
      AnalysesPhaseStable(analyses, entries, init);
    }
  }

  /**
   * The first history item for a day wins: an entry without an analysis gets
   * the one built from the first item that attaches to it.
   */
  lemma {:induction false} FirstAnalysisWins(analyses: map<nat, AnalysisRow>, entries: map<Date, EntryRow>, nextId: nat,
                                             items: seq<Json>, i: nat)
    requires EntryTableOk(entries, nextId)
    requires AnalysesPhase(analyses, entries, items).Some?
    requires i < |items| && items[i].JObj? && Attaches(entries, items[i].fields)
    requires entries[ItemDay(items[i].fields).value].id !in analyses
    requires forall j :: 0 <= j < i && items[j].JObj? ==> ItemDay(items[j].fields) != ItemDay(items[i].fields)
    ensures var id := entries[ItemDay(items[i].fields).value].id;
      var r := AnalysesPhase(analyses, entries, items).value;
      id in r && r[id] == AnalysisRowOf(items[i].fields)
    decreases |items|
  {
    var id := entries[ItemDay(items[i].fields).value].id;
    var init := items[..|items| - 1];
    AnalysesPhaseKeeps(analyses, entries, init);
    if i == |items| - 1 {
      AnalysesPhaseUntouched(analyses, entries, init, ItemDay(items[i].fields).value, nextId);
    } else {
      assert forall j :: 0 <= j < |init| ==> init[j] == items[j];
      FirstAnalysisWins(analyses, entries, nextId, init, i);
    }
  }

  /** An entry no item has attached to yet keeps having no analysis. */
  lemma {:induction false} AnalysesPhaseUntouched(analyses: map<nat, AnalysisRow>, entries: map<Date, EntryRow>, items: seq<Json>,
                                                  day: Date, nextId: nat)
    requires EntryTableOk(entries, nextId)
    requires day in entries && entries[day].id !in analyses
    requires forall j :: 0 <= j < |items| && items[j].JObj? ==> ItemDay(items[j].fields) != Some(day)
    requires AnalysesPhase(analyses, entries, items).Some?
    ensures entries[day].id !in AnalysesPhase(analyses, entries, items).value
    decreases |items|
  {
    if items != [] {
      var init := items[..|items| - 1];
      assert forall j :: 0 <= j < |init| ==> init[j] == items[j];
      AnalysesPhaseUntouched(analyses, entries, init, day, nextId);
    }
  }

  // ---------------------------------------------------------------- phase 3: chunks

  /**
   * The date string of a chunk: `metadata.date` when truthy, else the
   * `entry_Y_M_D` id read back as `Y-M-D`. None where the chunk is skipped:
   * not a dict, a `metadata` or `entry_id` of the wrong kind, no usable date.
   */
  function ChunkDateText(c: Json): Option<string> {
    if !c.JObj? then None
    else
      var meta := Get(c.fields, "metadata", JObj(map[]));
      if !meta.JObj? then None
      else
        var date := Get(meta.fields, "date", JNull);
        if Truthy(date) then (if date.JStr? then Some(date.s) else None)
        else
          var eid := Get(c.fields, "entry_id", JStr(""));
          if !eid.JStr? then None else EntryIdDate(eid.s)
  }

  /** The entry a chunk belongs to, when its date parses and the entry exists. */
  function ChunkEntry(entries: map<Date, EntryRow>, c: Json): Option<nat> {
    var text := ChunkDateText(c);
    if text.None? then None
    else
      var day := ParseEither(text.value);
      if day.None? || day.value !in entries then None else Some(entries[day.value].id)
  }

  predicate HasChunk(rows: seq<ChunkRow>, id: nat, index: Json) {
    exists i :: 0 <= i < |rows| && rows[i].entryId == id && rows[i].index == index
  }

  function AddChunk(rows: seq<ChunkRow>, entries: map<Date, EntryRow>, c: Json, lookup: IndexLookup): seq<ChunkRow> {
    var id := ChunkEntry(entries, c);
    if id.None? || HasChunk(rows, id.value, LookupIndex(lookup, c.fields)) then rows
    else rows + [ChunkRowOf(id.value, c.fields)]
  }

  function ChunksPhase(rows: seq<ChunkRow>, entries: map<Date, EntryRow>, items: seq<Json>, lookup: IndexLookup): seq<ChunkRow>
    decreases |items|
  {
    if items == [] then rows
    else AddChunk(ChunksPhase(rows, entries, items[..|items| - 1], lookup), entries, items[|items| - 1], lookup)
  }

  /**
   * The corpus as the script loads it: absent is no items; blank or bad JSON
   * raises; a number, boolean or null is not iterable and raises. A dict or a
   * string yields keys or characters, each skipped as not a dict.
   */
  function CorpusItems(f: StoredJson): Option<seq<Json>> {
    match f
    case Missing => Some([])
    case Blank => None
    case Garbage => None
    case Holds(v) => if v.JObj? then Some([]) else Iterate(v)
  }

  /**
   * With the corrected lookup, the chunk phase only appends, and afterwards
   * every chunk that belongs to an entry has a row under its entry and index.
   */
  lemma {:induction false} ChunksPhaseCovers(rows: seq<ChunkRow>, entries: map<Date, EntryRow>, items: seq<Json>)
    ensures var r := ChunksPhase(rows, entries, items, Defaulted);
      && rows <= r
      && forall i :: 0 <= i < |items| && ChunkEntry(entries, items[i]).Some? ==>
           HasChunk(r, ChunkEntry(entries, items[i]).value, LookupIndex(Defaulted, items[i].fields))
    decreases |items|
  {
    if items != [] {
      var init := items[..|items| - 1];
      ChunksPhaseCovers(rows, entries, init);
      assert forall i :: 0 <= i < |init| ==> init[i] == items[i];
      var before := ChunksPhase(rows, entries, init, Defaulted);
      var c := items[|items| - 1];
      var r := AddChunk(before, entries, c, Defaulted);
      assert before <= r;
      forall i | 0 <= i < |items| && ChunkEntry(entries, items[i]).Some?
        ensures HasChunk(r, ChunkEntry(entries, items[i]).value, LookupIndex(Defaulted, items[i].fields))
      {
        var id, key := ChunkEntry(entries, items[i]).value, LookupIndex(Defaulted, items[i].fields);
        if i < |items| - 1 {
          var j :| 0 <= j < |before| && before[j].entryId == id && before[j].index == key;
          assert r[j] == before[j];
        } else if !HasChunk(before, id, key) {
          assert r[|before|] == ChunkRowOf(id, c.fields);
        }
      }
    }
  }

  /** When every chunk that belongs to an entry already has its row, the chunk phase changes nothing. */
  lemma {:induction false} ChunksPhaseStable(rows: seq<ChunkRow>, entries: map<Date, EntryRow>, items: seq<Json>, lookup: IndexLookup)
    requires forall i :: 0 <= i < |items| && ChunkEntry(entries, items[i]).Some? ==>
      HasChunk(rows, ChunkEntry(entries, items[i]).value, LookupIndex(lookup, items[i].fields))
    ensures ChunksPhase(rows, entries, items, lookup) == rows
    decreases |items|
  {
    if items != [] {
      var init := items[..|items| - 1];
      assert forall i :: 0 <= i < |init| ==> init[i] == items[i];
      ChunksPhaseStable(rows, entries, init, lookup);
    }
  }

  // ---------------------------------------------------------------- the whole script

  function MigrateAll(t: Tables, files: seq<MdFile>, history: StoredJson, corpus: StoredJson, lookup: IndexLookup): (Tables, MigrationOutcome) {
    var (entries, nextId) := EntriesPhase(t.entries, t.nextId, files);
    var afterEntries := t.(entries := entries, nextId := nextId);
    var items := HistoryItems(history);
    var analyses := if items.None? then None else AnalysesPhase(t.analyses, entries, items.value);
    if analyses.None? then (afterEntries, StoppedAtAnalyses)
    else
      var afterAnalyses := afterEntries.(analyses := analyses.value);
      var chunkItems := CorpusItems(corpus);
      if chunkItems.None? then (afterAnalyses, StoppedAtChunks)
      else (afterAnalyses.(chunks := ChunksPhase(t.chunks, entries, chunkItems.value, lookup)), Migrated)
  }

  /** With the corrected lookup, running the migration a second time over the same inputs adds nothing. */
  lemma MigrateIdempotent(t: Tables, files: seq<MdFile>, history: StoredJson, corpus: StoredJson)
    requires EntryTableOk(t.entries, t.nextId)
    requires MigrateAll(t, files, history, corpus, Defaulted).1 == Migrated
    ensures var once := MigrateAll(t, files, history, corpus, Defaulted).0;
      MigrateAll(once, files, history, corpus, Defaulted) == (once, Migrated)
  {
    var once := MigrateAll(t, files, history, corpus, Defaulted).0;
    EntriesPhaseKeeps(t.entries, t.nextId, files);
    EntriesPhaseStable(once.entries, once.nextId, files);
    var items := HistoryItems(history).value;
    AnalysesPhaseKeeps(t.analyses, once.entries, items);
    AnalysesPhaseStable(once.analyses, once.entries, items);
    var chunkItems := CorpusItems(corpus).value;
    ChunksPhaseCovers(t.chunks, once.entries, chunkItems);
    ChunksPhaseStable(once.chunks, once.entries, chunkItems, Defaulted);
  }

  /** A chunk without `index` whose date names an existing entry. */
  function IndexlessChunk(day: Date, text: string): Json
    requires ValidDate(day)
  {
    JObj(map["text" := JStr(text), "metadata" := JObj(map["date" := JStr(IsoFormat(day))])])
  }

  /**
   * As written, such a chunk is stored with index 0 but looked up by None,
   * so each run of the chunk phase inserts it again.
   */
  lemma IndexlessChunkAddedTwice(entries: map<Date, EntryRow>, day: Date, text: string)
    requires ValidDate(day) && day in entries
    ensures var c := IndexlessChunk(day, text);
      var once := ChunksPhase([], entries, [c], AsWritten);
      && once == [ChunkRowOf(entries[day].id, c.fields)]
      && ChunksPhase(once, entries, [c], AsWritten) == once + once
  {
    var c := IndexlessChunk(day, text);
    ParseIsoFormat(day);
    assert ChunkDateText(c) == Some(IsoFormat(day));
    assert ChunkEntry(entries, c) == Some(entries[day].id);
    assert [c][..0] == [];
    var row := ChunkRowOf(entries[day].id, c.fields);
    assert row.index == JInt(0);
    assert ChunksPhase([], entries, [c], AsWritten) == [row];
    assert !HasChunk([row], entries[day].id, JNull);
  }

  /** The entry loop of `migrate()`; an entry is staged only for a day not yet present. */
  method ImportEntries(entries: map<Date, EntryRow>, nextId: nat, files: seq<MdFile>) returns (e: map<Date, EntryRow>, n: nat)
    ensures (e, n) == EntriesPhase(entries, nextId, files)
  {
    e, n := entries, nextId;
    var k := 0;
    while k < |files|
      invariant 0 <= k <= |files|
      invariant (e, n) == EntriesPhase(entries, nextId, files[..k])
    {
      assert files[..k + 1][..k] == files[..k];
      var f := files[k];
      var day := ParseEither(f.stem);
      if day.Some? && day.value !in e && f.content.Some? {
        var text := f.content.value;
        e := e[day.value := EntryRow(n, text, |Words(text)|, |text|)];
        n := n + 1;
      }
      k := k + 1;
    }
    assert files[..k] == files;
  }

  /** The analysis loop of `migrate()`; None where an item that is not a dict ends the script. */
  method ImportAnalyses(analyses: map<nat, AnalysisRow>, entries: map<Date, EntryRow>, items: seq<Json>)
    returns (r: Option<map<nat, AnalysisRow>>)
    ensures r == AnalysesPhase(analyses, entries, items)
  {
    var staged := analyses;
    var k := 0;
    while k < |items|
      invariant 0 <= k <= |items|
      invariant AnalysesPhase(analyses, entries, items[..k]) == Some(staged)
    {
      assert items[..k + 1][..k] == items[..k];
      var item := items[k];
      if !item.JObj? {
        AnalysesPhaseKeeps(analyses, entries, items);
        return None;
      }
      var day := ItemDay(item.fields);
      if day.Some? && day.value in entries && entries[day.value].id !in staged {
        staged := staged[entries[day.value].id := AnalysisRowOf(item.fields)];
      }
      k := k + 1;
    }
    assert items[..k] == items;
    r := Some(staged);
  }

  /**
   * The chunk loop of `migrate()`: `AsWritten` looks existing rows up by
   * `c.get("index")` as the script does, `Defaulted` by the index the row is
   * stored under.
   */
  method ImportChunks(rows: seq<ChunkRow>, entries: map<Date, EntryRow>, items: seq<Json>, lookup: IndexLookup)
    returns (r: seq<ChunkRow>)
    ensures r == ChunksPhase(rows, entries, items, lookup)
  {
    r := rows;
    var k := 0;
    while k < |items|
      invariant 0 <= k <= |items|
      invariant ChunksPhase(rows, entries, items[..k], lookup) == r
    {
      assert items[..k + 1][..k] == items[..k];
      var c := items[k];
      var id := ChunkEntry(entries, c);
      if id.Some? && !HasChunk(r, id.value, LookupIndex(lookup, c.fields)) {
        r := r + [ChunkRowOf(id.value, c.fields)];
      }
      k := k + 1;
    }
    assert items[..k] == items;
  }

  /**
   * `migrate()` over the database; `lookup` is the chunk lookup, `AsWritten`
   * for the script itself. Each phase commits when its loop ends; a phase
   * that raises leaves the earlier phases committed.
   */
  method Migrate(db: JournalService, files: seq<MdFile>, history: StoredJson, corpus: StoredJson, lookup: IndexLookup)
    returns (outcome: MigrationOutcome)
    requires db.Valid()
    modifies db
    ensures db.Valid()
    ensures (Tables(db.entries, db.nextId, db.analyses, db.chunks), outcome)
      == MigrateAll(Tables(old(db.entries), old(db.nextId), old(db.analyses), old(db.chunks)), files, history, corpus, lookup)
    ensures db.files == old(db.files)
  {
    EntriesPhaseKeeps(db.entries, db.nextId, files);
    var entries, nextId := ImportEntries(db.entries, db.nextId, files);
    db.entries, db.nextId := entries, nextId;
    var items := HistoryItems(history);
    if items.None? {
      return StoppedAtAnalyses;
    }
    var analyses := ImportAnalyses(db.analyses, entries, items.value);
    if analyses.None? {
      return StoppedAtAnalyses;
    }
    db.analyses := analyses.value;
    var chunkItems := CorpusItems(corpus);
    if chunkItems.None? {
      return StoppedAtChunks;
    }
    db.chunks := ImportChunks(db.chunks, entries, chunkItems.value, lookup);
    outcome := Migrated;
  }
}
