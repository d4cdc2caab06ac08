# Diary analyzer: a verified model of the journal pipeline

This project models, in Dafny, the deterministic core of a personal-journal
system written in Python. The system reads dated markdown entries
(`dd-mm-yyyy.md`), asks a language model to analyse each one, splits it into
typed chunks, keeps only the metadata the chunk text supports, stamps every
chunk with an id and counts, and keeps the results in JSON files and a
database. A vector index is built over the chunks; a query engine turns
nearest-neighbour hits into ranked records and a dated context; a chat
session sends that context, a system prompt and the recent turns to the
model. A migration script loads the JSON files into the database, and a
statistics endpoint aggregates the emotions recorded over the history.

The modules follow the program:

- `Wrappers`, `Text`, `Json`, `Calendar`, `Seqs`: Python's `Option`-like
  results, `str` operations (`split`, `strip`, `lower`, `find`), decoded
  JSON values with `dict.get`, truthiness and hashability, and the two
  `strptime` formats the program uses.
- `Ids`: entry and chunk ids, file-name validation and the date in a name.
- `Extract`: recovering a JSON object from free model text.
- `ParagraphChunker`: the paragraph-packing splitter and the keyword classifier.
- `LlmChunker`: the model-driven chunker with its validator, retries and fallback,
  the parsing of model chunk lists, and the analysis post-processing.
- `Sanitize`: the metadata filter; `Enrich`: the two generations of chunk enrichment.
- `Retry`: the rate-limit retry loop with back-off and jitter.
- `Listing`: listing the journal folder and selecting pending files.
- `LegacyFiles`: the history and chunk-corpus JSON files.
- `VectorIndex`, `QueryEngine`, `RagChat`: index state, retrieval and the chat window.
- `DiaryService`: the database-backed journal service.
- `Migration`: the JSON-to-database migration.
- `Stats`: the statistics endpoint.

The language model, the embedding model, the nearest-neighbour search,
`json.loads`, the HTTP status of each request, the clock and the random
jitter are all parameters: oracle functions or values supplied by the caller.

## Model

| member | source | states |
|---|---|---|
| Calendar.ParseIso | scripts/migrate_data.py:32 | `strptime(s, "%Y-%m-%d")` over ASCII digits: any date it yields is a real calendar day; None where Python raises ValueError (and on non-ASCII digits; see Left out) |
| Calendar.ParseDmy | scripts/migrate_data.py:35 | `strptime(s, "%d-%m-%Y")` over ASCII digits: any date it yields is a real calendar day (non-ASCII digits are rejected; see Left out) |
| Calendar.ParseEither | scripts/migrate_data.py:31-35 | the ISO reading wins when it succeeds; otherwise the result is exactly the day-month-year reading |
| Calendar.ParseIsoFormat | scripts/migrate_data.py:32 | parsing the ISO rendering of any real day gives that day back |
| Calendar.ParseDmyFormat | diary_analyzer.py:161 | parsing the `dd-mm-yyyy` rendering of any real day gives that day back |
| Calendar.PrevDay | backend/app/modules/journal/api/stats.py:42-43 | `d - timedelta(days=1)` is a real day one ordinal earlier |
| Calendar.DaysBackDefined | backend/app/modules/journal/api/stats.py:42-43 | going back `n` days is defined exactly when `n` is below the date's ordinal (Python's OverflowError otherwise) |
| Calendar.DaysBackOrdinal | backend/app/modules/journal/api/stats.py:42-43 | going back `n` days lands exactly `n` ordinals earlier |
| Calendar.PrevDayWeekday | backend/app/modules/journal/api/stats.py:44-45 | the weekday of the previous day is one less, modulo seven |
| Ids.EntryId | diary_analyzer.py:100-112 | `entry_yyyy_mm_dd` is produced exactly when the date string has at least three `-` fields (IndexError otherwise) |
| Ids.EntryIdOfFields | diary_analyzer.py:110-112 | `d-m-y` becomes `entry_y_m_d` |
| Ids.ChunkId | diary_analyzer.py:115-126 | the chunk id extends the entry id with `_chunk_` and the index |
| Ids.ChunkIdInjective | diary_analyzer.py:115-126 | within one entry, equal chunk ids mean equal integer positions |
| Ids.DateFromFileNameSound | diary_analyzer.py:143-163 | a returned date is the file name minus `.md`, ten characters long, and names a real day |
| Ids.NewlineNameHasNoDate | diary_analyzer.py:129-163 | a name the `$` anchor accepts only because of a trailing newline yields no date |
| Ids.DateFromFileNameComplete | diary_analyzer.py:143-163 | every `dd-mm-yyyy.md` name of a real day yields its stem |
| Ids.FileNameOfDay | diary_analyzer.py:143-163 | the file of every real day is recognised and yields its date |
| Ids.EntryIdDateReversesEntryId | scripts/migrate_data.py:110-114 | reading a date back from an entry id reorders `dd-mm-yyyy` into `yyyy-mm-dd` |
| Ids.EntryIdRoundTrip | scripts/migrate_data.py:110-121 | a journal day survives the trip to an entry id and back through the migration's date parsing |
| Extract.FencedBlock | diary_analyzer.py:775-778 | the fenced-block strategy returns stripped text, and nothing without a closing fence |
| Extract.BraceSpan | diary_analyzer.py:780-782 | the brace-span strategy returns text that starts with `{` and ends with `}` |
| Extract.BracePairFound | diary_analyzer.py:780-782 | any `{` before a `}` makes the brace-span strategy succeed |
| Extract.NoBacktickNoFence | diary_analyzer.py:775-777 | text without a backtick has no fenced block |
| Extract.ExtractJson | diary_analyzer.py:762-784 | the extraction fails exactly when neither strategy finds anything |
| Extract.FencedReplyRoundTrip | diary_analyzer.py:775-778 | a reply that is one `json` fenced block yields the block's content |
| Extract.ObjectInProse | diary_analyzer.py:780-782 | prose around a single object, without fences or braces, yields the object |
| Extract.WholeTextImpliesBraceSpan | diario.py:520-523 | whenever the whole-text strategy would succeed, the brace span already exists |
| Extract.ThirdStrategyUnreachable | diario.py:497-525 | the three-strategy version and the two-strategy version agree on every reply |
| ParagraphChunker.HashRun | diary_analyzer.py:183 | the run of `#` found is maximal |
| ParagraphChunker.PlainTextIsOneParagraph | diary_analyzer.py:183-184 | text with no newline and no `#` is split into one piece, itself |
| ParagraphChunker.Paragraphs | diary_analyzer.py:183-184 | every paragraph is non-empty and stripped |
| ParagraphChunker.ParagraphsCoverText | diary_analyzer.py:183-184 | the split and the strip drop only whitespace: with whitespace removed, the paragraphs one after the other are the text |
| ParagraphChunker.ChunksCoverText | diary_analyzer.py:183-217 | with whitespace removed, the chunks one after the other are the text, in both the no-paragraph and the packed case |
| ParagraphChunker.PackParagraphs | diary_analyzer.py:186-210 | the packing loop's chunks are the greedy packing of the paragraphs, each joined by a blank line |
| ParagraphChunker.SplitIntoChunks | diary_analyzer.py:166-217 | the whole text when there is no paragraph, the joined greedy packing otherwise |
| ParagraphChunker.PackCovers | diary_analyzer.py:190-210 | concatenating the chunks gives the open chunk and the remaining paragraphs back, in order |
| ParagraphChunker.PackGroupsNonEmpty | diary_analyzer.py:190-210 | no chunk is empty, and there is a chunk whenever there is a paragraph |
| ParagraphChunker.PackClosesOnlyWhenFull | diary_analyzer.py:194-199 | a chunk is closed only when it holds `min` words and the next paragraph would pass `max` |
| ParagraphChunker.PackFirstGroupStarts | diary_analyzer.py:190-210 | the first chunk starts with the open chunk's first paragraph |
| ParagraphChunker.PackGrowsLegally | diary_analyzer.py:200-206 | each paragraph added to a chunk fit under `max` or was needed to reach `min` |
| ParagraphChunker.ChunksNeverEmpty | diary_analyzer.py:209-214 | the chunker returns at least one chunk |
| ParagraphChunker.ChunksCoverParagraphs | diary_analyzer.py:190-210 | the chunks hold every paragraph, once each and in order |
| ParagraphChunker.ChunksReachMinimum | diary_analyzer.py:194-199 | every chunk but the last holds at least `min` words |
| ParagraphChunker.ChunksGrowLegally | diary_analyzer.py:200-206 | inside every chunk, each added paragraph fit under `max` or was needed to reach `min` |
| ParagraphChunker.ChunksCloseOnlyWhenFull | diary_analyzer.py:194-199 | every chunk boundary is one the greedy rule forces |
| ParagraphChunker.Score | diary_analyzer.py:251-253 | a score never exceeds the number of keywords |
| ParagraphChunker.TypeOfScoresIsStrictArgMax | diary_analyzer.py:256-271 | each category is chosen exactly when its score is the strict maximum; `mixto` otherwise |
| ParagraphChunker.ClassifyChunk | diary_analyzer.py:220-271 | the type is one of `emociones`, `reflexion`, `hechos`, `mixto` |
| ParagraphChunker.NoKeywordsIsMixed | diary_analyzer.py:262-264 | a text with none of the keywords is `mixto` |
| Stats.CanonicalFixed | backend/app/modules/journal/api/stats.py:73-75 | `lower()` then `strip()` leave a canonical name unchanged |
| Stats.TargetCanonical | backend/app/modules/journal/api/stats.py:55-71 | each emotion the synonym table folds into is already lower-case and stripped, and maps to itself where it is a key |
| Stats.SynonymsCanonical | backend/app/modules/journal/api/stats.py:55-71 | every target of the synonym table is canonical and is its own image when it is itself a key |
| Stats.LowerStripCanonical | backend/app/modules/journal/api/stats.py:74 | whatever `lower().strip()` produces is canonical |
| Stats.NormalizeIdempotent | backend/app/modules/journal/api/stats.py:73-75 | `normalize_emotion` is idempotent |
| Stats.FirstSeenSpec | backend/app/modules/journal/api/stats.py:111-112 | the counter's keys are distinct and are exactly the names of the list |
| Stats.Names | backend/app/modules/journal/api/stats.py:121 | the names are taken pairwise from the counted pairs |
| Stats.BumpSpec | backend/app/modules/journal/api/stats.py:111 | one more occurrence appends a new name or increments its pair, and adds one to the total |
| Stats.CountedSpec | backend/app/modules/journal/api/stats.py:111-112 | `Counter(xs)` lists each name once in first-seen order with its number of occurrences; counts sum to `len(xs)` |
| Stats.InsertByCountSorted | backend/app/modules/journal/api/stats.py:121-127 | inserting keeps the order by count and adds exactly the new pair |
| Stats.InsertByCountStable | backend/app/modules/journal/api/stats.py:121-127 | an inserted pair goes after every pair of its own count |
| Stats.MostCommonSpec | backend/app/modules/journal/api/stats.py:121-127 | `most_common()` is a permutation sorted by count, and ties keep the counter's order |
| Stats.Top | backend/app/modules/journal/api/stats.py:121-127 | `most_common(n)` has at most `n` pairs |
| Stats.TopSpec | backend/app/modules/journal/api/stats.py:121-127 | `most_common(n)` keeps `min(n, len)` pairs of the counter, highest first; nothing left out counts more than anything kept; ties keep the first-seen ones |
| Stats.DayBefore | backend/app/modules/journal/api/stats.py:42 | `today - timedelta(days=n)` is a real day `n` ordinals earlier |
| Stats.LastWeek | backend/app/modules/journal/api/stats.py:42 | when defined, seven real days |
| Stats.LastWeekSpec | backend/app/modules/journal/api/stats.py:41-42 | the week exists exactly when today's ordinal exceeds 6; its days are consecutive, oldest first, and end today |
| Stats.DayLabelsOfWeek | backend/app/modules/journal/api/stats.py:46-47 | the labels run through consecutive weekdays and the last one is today's |
| Stats.DayKeyIdentifiesDay | backend/app/modules/journal/api/stats.py:43 | for real days, equal `%d-%m-%Y` keys mean equal days |
| Stats.Clean | backend/app/modules/journal/api/stats.py:83 | cleaning never produces more names than there are items |
| Stats.UndatedCountsGlobally | backend/app/modules/journal/api/stats.py:83-108 | an entry's emotions always count globally; they count for the month and a day only when its date is in them |
| Stats.NoEmotionsSkipped | backend/app/modules/journal/api/stats.py:78-79 | an entry without emotions changes nothing, whatever its date |
| Stats.CollectDays | backend/app/modules/journal/api/stats.py:43 | the per-day lists stay one per day of the week |
| Stats.CollectFailsAfter | backend/app/modules/journal/api/stats.py:154-156 | once an entry raises, the whole aggregation fails |
| Stats.Line | backend/app/modules/journal/api/stats.py:137-144 | one point per day of the week |
| Stats.Datasets | backend/app/modules/journal/api/stats.py:135-150 | one dataset per chart emotion; its label is `capitalize()` of the emotion, with Python's title case of the first character (`ß` becomes `Ss`, `µ` the Greek capital mu; see Text.Capitalize) |
| Text.Capitalize | backend/app/modules/journal/api/stats.py:147 | the first character title-cased (one character, two for `ß`), and the rest exactly the lower-cased rest |
| Text.CapitalizeIgnoresCase | backend/app/modules/journal/api/stats.py:74-147 | `capitalize()` depends only on the lower case of its argument, so lower-casing the names at line 74 changes no label |
| Text.CapitalizeIdempotent | backend/app/modules/journal/api/stats.py:147 | `capitalize()` applied twice is applied once, `ß` and `µ` included |
| Stats.ReportOfHistory | backend/app/modules/journal/api/stats.py:28-152 | the figures of a readable history are the report of its aggregated lists over a full week |
| Stats.ReportCounts | backend/app/modules/journal/api/stats.py:33-112 | `total_entries` counts every entry; the counts list each cleaned emotion once, in first-seen order, with its number of occurrences |
| Stats.ReportTop | backend/app/modules/journal/api/stats.py:125-128 | the top five are the largest counts, highest first |
| Stats.ReportWeek | backend/app/modules/journal/api/stats.py:41-152 | seven consecutive weekday labels ending today; at most three datasets of seven points; a day without emotions scores 0 |
| Stats.TopNames | backend/app/modules/journal/api/stats.py:121-123 | the names `most_common(n)` reports occur in the list, and there is one as soon as the list is non-empty and `n` positive |
| Stats.ChartFallback | backend/app/modules/journal/api/stats.py:120-123 | the chart uses the week's top three, and the overall top three only when the week has no emotions |
| Stats.StatsFileCases | backend/app/modules/journal/api/stats.py:25-31 | a missing file or a non-list history gives the empty figures; an unparseable one an error |
| Stats.Aggregate | backend/app/modules/journal/api/stats.py:77-108 | the aggregation loop computes the fold of one step per entry |
| Stats.BuildDatasets | backend/app/modules/journal/api/stats.py:132-152 | the nested loops build exactly the specified datasets |
| Stats.ComputeStats | backend/app/modules/journal/api/stats.py:9-158 | the endpoint returns exactly the specified figures or error |
| Migration.AddEntryKeeps | scripts/migrate_data.py:37-49 | one file never overwrites an existing entry, leaves its day present when importable, and keeps the table well formed |
| Migration.EntriesPhaseKeeps | scripts/migrate_data.py:27-54 | after the entry loop, existing entries are unchanged, every importable file's day is present, and the table is well formed |
| Migration.EntriesPhaseStable | scripts/migrate_data.py:37-40 | once every importable file's day is present, the entry loop changes nothing |
| Migration.AnalysesPhaseKeeps | scripts/migrate_data.py:62-96 | the analysis loop fails exactly when some item is not a dict; otherwise existing analyses stay and every attaching item leaves its entry with an analysis |
| Migration.AnalysesPhaseStable | scripts/migrate_data.py:80-83 | with an analysis already present for every attaching item, the analysis loop changes nothing |
| Migration.FirstAnalysisWins | scripts/migrate_data.py:80-93 | an entry without an analysis gets the one built from the first item that attaches to it |
| Migration.AnalysesPhaseUntouched | scripts/migrate_data.py:72-75 | an entry no item names keeps having no analysis |
| Migration.ChunksPhaseCovers | scripts/migrate_data.py:106-144 | with the lookup by the stored index, the chunk loop only appends, and every chunk of an existing entry ends with a row under its entry and index |
| Migration.ChunksPhaseStable | scripts/migrate_data.py:129-131 | when every chunk of an existing entry already has its row, the chunk loop changes nothing |
| Migration.MigrateIdempotent | scripts/migrate_data.py:19-147 | with the lookup by the stored index, a second complete run over the same inputs changes no table |
| Migration.IndexlessChunkAddedTwice | scripts/migrate_data.py:129-135 | as written, a chunk without `index` is stored under 0 but looked up by None, so a second run inserts it again |
| Migration.ImportEntries | scripts/migrate_data.py:27-52 | the entry loop computes the entry phase |
| Migration.ImportAnalyses | scripts/migrate_data.py:62-96 | the analysis loop computes the analysis phase, None where an item ends the script |
| Migration.ImportChunks | scripts/migrate_data.py:106-144 | the chunk loop computes the chunk phase for the given lookup: `AsWritten` is the script's `c.get("index")`, `Defaulted` the corrected lookup by the stored index |
| Migration.Migrate | scripts/migrate_data.py:19-147 | the database keeps its invariant and ends with the tables and outcome of the three phases over its old tables, with the given chunk lookup (`AsWritten` for the script, which re-inserts an indexless chunk on every run); the entry files are untouched |
| DiaryService.IsoEntryId | backend/app/modules/journal/services/diary_service.py:74-76 | an id exists exactly when the date has three `-` fields, and it reorders them into `entry_y_m_d` |
| DiaryService.IsoEntryIdMatchesFileId | backend/app/modules/journal/services/diary_service.py:74-76 | for every real day, the service's id of the ISO date equals the folder pipeline's id of the `dd-mm-yyyy` date |
| DiaryService.AnnotationRecorded | backend/app/modules/journal/services/diary_service.py:78-87 | the annotation sets `fecha`, `id`, `raw_text`, the counts and `chunk_count`, and keeps every other field of the model's analysis |
| DiaryService.Prepare | backend/app/modules/journal/services/diary_service.py:62-91 | a successful plan has a day that parses as ISO, the entry id of the date, and an analysis annotated with the entry and the chunk count |
| DiaryService.ReplacementScope | backend/app/modules/journal/services/diary_service.py:110-126 | after the replacement the entry's chunk rows are exactly the new ones, in order, and every other entry keeps its rows |
| DiaryService.AsJson | backend/app/modules/journal/services/diary_service.py:147 | each enriched chunk is carried into the corpus as the same object |
| DiaryService.CompletedRunIndexesCorpus | backend/app/modules/journal/services/diary_service.py:133-155 | a completed run appends one history item, appends the new chunks to the corpus, and saves one vector per corpus chunk with exactly that corpus as metadata |
| DiaryService.FailedRunKeepsIndex | backend/app/modules/journal/services/diary_service.py:137-160 | a run that stops at the corpus or the index leaves the previous index and metadata files in place |
| DiaryService.ReprocessingDuplicates | backend/app/modules/journal/services/diary_service.py:139-155 | processing the same entry twice leaves its chunks twice in the corpus and in the index metadata |
| DiaryService.JournalService.constructor | backend/app/modules/journal/services/diary_service.py:22-28 | an empty, well-formed database next to the given files |
| DiaryService.JournalService.ReadEntry | backend/app/modules/journal/services/diary_service.py:168-183 | a record exactly when the date parses as ISO and has an entry; it holds that entry's date, text and counts |
| DiaryService.JournalService.SaveEntry | backend/app/modules/journal/services/diary_service.py:22-53 | fails exactly on a non-empty date strptime rejects, changing nothing; otherwise the day (today when empty) is overwritten or inserted with a fresh id, and reading the returned date gives the text back |
| DiaryService.JournalService.Upsert | backend/app/modules/journal/services/diary_service.py:28-45 | the day's row is overwritten in place or inserted with the next id; every other row is unchanged |
| DiaryService.JournalService.ListEntries | backend/app/modules/journal/services/diary_service.py:162-166 | the ISO dates of exactly the stored entries, each once, latest first |
| DiaryService.KeptRows | backend/app/modules/journal/services/diary_service.py:112-114 | deleting an entry's old chunks leaves exactly the other entries' rows, in order |
| DiaryService.AppendRows | backend/app/modules/journal/services/diary_service.py:116-126 | the new chunk rows follow the kept rows, one per new chunk, in order |
| DiaryService.JournalService.ReplaceRows | backend/app/modules/journal/services/diary_service.py:94-128 | the entry's analysis is replaced (delete applied before insert; see "## Left out"), its chunk rows become the new ones appended after every other entry's rows, and nothing else changes |
| DiaryService.JournalService.ProcessDiaryEntry | backend/app/modules/journal/services/diary_service.py:55-160 | nothing changes unless analysis, ids, chunking and the date parse all succeed; then the entry's rows are replaced when the entry exists (delete applied before insert; see "## Left out") and the legacy steps run; the entry table never changes |
| DiaryService.JournalService.WriteLegacyFiles | backend/app/modules/journal/services/diary_service.py:133-155 | the files become the result of the history append, corpus append and re-index, and no table changes |
| DiaryService.InsertDescending | backend/app/modules/journal/services/diary_service.py:164 | inserting a new day into a strictly descending list keeps it strictly descending with the same days plus the new one |
| DiaryService.DescendingDistinct | backend/app/modules/journal/services/diary_service.py:164 | a strictly descending list has no repeated day |
| LegacyFiles.LoadHistory | diary_analyzer.py:820-855 | the history loads exactly when the file is missing, blank or a list; what it loads is that list (`[]` when missing or blank) |
| LegacyFiles.SaveAnalysis | diary_analyzer.py:858-884 | the save succeeds exactly when the history loads, and writes the old list with the analysis appended |
| LegacyFiles.SaveChunks | diary_analyzer.py:887-925 | the save fails only on content that parses to a non-list; otherwise it writes the old list (none when unreadable) followed by the new chunks |
| LegacyFiles.SavesOnlyAppend | diary_analyzer.py:870-871 | a successful save keeps what a readable file held as a prefix |
| LegacyFiles.UnreadableCorpusReplaced | diary_analyzer.py:903-909 | a corpus that does not parse is replaced by the new chunks alone |
| LegacyFiles.UnreadableHistoryKept | diary_analyzer.py:852-853 | an unparseable history aborts the save |
| LegacyFiles.SaveChunksTwice | diary_analyzer.py:887-918 | two saves in a row equal one save of both batches |
| Enrich.Record | diary_analyzer.py:316-333 | the record has exactly the eight keys, the chunk id built from the entry id and index, and counts recomputed from the text |
| Enrich.EnrichOne | diary_analyzer.py:301-335 | a chunk enriches only when it is a dict with a string `text` and an `index`; the record keeps its index and text, its type is a known type (the chunk's own when known), and its metadata is the sanitised metadata with the entry's date |
| Enrich.EnrichAllPointwise | diary_analyzer.py:299-337 | the loop succeeds exactly when every chunk enriches, and then yields one record per chunk, in order |
| Enrich.EnrichChunks | diary_analyzer.py:299-337 | the loop computes the enrichment of the whole list, stopping at the first malformed chunk |
| Enrich.EnrichWithoutFallback | diary_analyzer.py:274-337 | a chunker failure is re-raised; otherwise the result is the enrichment of the chunker's list |
| Enrich.CopiedMetadata | diario.py:301-307 | each chunk's metadata holds the entry's date, emotions, topics, intensity and people, with their defaults |
| Enrich.EnrichAt | diario.py:293-308 | a chunk enriches exactly when it has a string `text` and a `type`; the record is numbered by its position |
| Enrich.EnrichByPosition | diario.py:268-313 | the `enumerate` loop computes the positional enrichment |
| Enrich.EnrichFromPositional | diario.py:292-310 | the records are numbered `0..n-1`, keep each chunk's text and type, and carry the entry's analysis |
| Enrich.ChunkIdsDistinct | diario.py:292-310 | positional numbering makes every chunk id of one entry distinct |
| Sanitize.KeepPeople | diary_analyzer.py:709-715 | at most as many people as given; a value is kept exactly when it was given, is a string, and occurs in the text |
| Sanitize.KeepEmotions | diary_analyzer.py:718-728 | every kept emotion is whitelisted and mentioned in the lower-cased text, and every given emotion that is supported is kept, lower-cased |
| Sanitize.KeptEmotionsComeFromInput | diary_analyzer.py:720-726 | every kept emotion is the lower-cased spelling of one the model gave |
| Sanitize.Assemble | diary_analyzer.py:714-734 | people and emotions are present exactly when non-empty, the intensity exactly when valid |
| Sanitize.SafeMetadata | diary_analyzer.py:705-734 | the clean metadata holds only non-empty people and emotion lists and a valid intensity; a falsy value counts as `{}`; a truthy non-dict raises |
| Sanitize.SanitizeChunk | diary_analyzer.py:702-735 | a copy of the chunk with every other key unchanged and `metadata` replaced by the cleaned metadata; it fails exactly when cleaning fails |
| Sanitize.PeopleAreInText | diary_analyzer.py:709-715 | every person left in the metadata is named in the chunk's text |
| Sanitize.KeepPeopleIdempotent | diary_analyzer.py:709-715 | filtering people twice is filtering once |
| Sanitize.KeepEmotionsIdempotent | diary_analyzer.py:718-728 | filtering emotions twice is filtering once |
| Sanitize.AssembledFields | diary_analyzer.py:714-734 | reading the assembled metadata back finds what was assembled |
| Sanitize.SafeMetadataIdempotent | diary_analyzer.py:705-734 | cleaning already-clean metadata changes nothing |
| Sanitize.SanitizeIdempotent | diary_analyzer.py:702-735 | sanitising a chunk twice is sanitising it once |
| LlmChunker.ChunkVerdict | diario.py:173-180 | a chunk passes exactly when it has a known type and a non-blank string text; a failing chunk never yields True |
| LlmChunker.CheckFrom | diario.py:173-180 | no verdict exactly when every remaining chunk passes; a verdict is never True |
| LlmChunker.ValidationAccepts | diario.py:156-193 | a chunk list is accepted exactly when it is non-empty, every chunk passes, and at least 80% of the original's distinct words reappear |
| LlmChunker.ValidateChunks | diario.py:156-193 | the check loop with its early returns computes the validation |
| LlmChunker.WholeTextCovers | diario.py:183-191 | a chunk holding the whole text covers that text |
| LlmChunker.WithDefaults | diario.py:241-245 | `setdefault` adds `type` `mixto` and `text` `""` only where absent and keeps every other field |
| LlmChunker.Prepared | diario.py:235-245 | one prepared chunk per item, each the item with defaults filled in; defined whenever every item is a dict |
| LlmChunker.ChunkListOutcome | diario.py:240-250 | the list is accepted exactly when every item is a dict and the prepared chunks pass validation, and they are the chunks returned; a rejection (no exception, so no pause) only when `setdefault` raised on no item |
| LlmChunker.Attempt | diario.py:215-258 | an accepted attempt's chunks are non-empty and pass validation; an attempt that does not raise had a reply from which JSON was extracted and decoded to a dict holding a `chunks` list |
| LlmChunker.FirstAccepted | diario.py:214-250 | the attempt returned is the first that succeeds; when none is returned, every attempt failed |
| LlmChunker.GenerateChunks | diario.py:196-265 | at most `max_intentos` calls; the first accepted attempt's chunks after exactly that many calls; else every attempt was made and the whole text is the single fallback chunk (an error under the no-fallback policy); a one-second pause follows exactly the attempts that raised, other than the last permitted one, each listed once in order |
| LlmChunker.FallbackPassesValidation | diario.py:260-265 | the fallback chunk of a non-blank text passes validation |
| LlmChunker.BlankFallbackFailsValidation | diario.py:260-265 | the fallback chunk of a blank text itself fails validation |
| LlmChunker.ChunksFromReply | diary_analyzer.py:675-695 | the chunks are returned exactly when there is a reply, JSON is extracted and decodes to a dict holding `chunks`; they are that value |
| LlmChunker.ParseAnalysis | diary_analyzer.py:787-817 | bad JSON and a non-object are errors; otherwise the decoded object with `fecha` set and every other field kept |
| Listing.Insert | diary_analyzer.py:373-375 | inserting adds exactly the new name to the list |
| Listing.InsertSorted | diary_analyzer.py:373-375 | inserting into a date-ordered list keeps it date-ordered |
| Listing.SortByDate | diary_analyzer.py:373-375 | the sort is a permutation of the names |
| Listing.SortByDateSorted | diary_analyzer.py:373-375 | the sorted listing is in date order |
| Listing.ListJournalFilesFails | diary_analyzer.py:363-383 | as written, the listing of an existing folder fails exactly when some well-shaped name names no real day |
| Listing.ImpossibleDayHasNoKey | diary_analyzer.py:373-375 | `31-02-2024.md` passes the name check but has no sort key |
| Listing.ImpossibleDayBreaksListing | diary_analyzer.py:363-383 | as written, a folder holding `31-02-2024.md` and a real day fails to list |
| Listing.ListDatedFiles | diary_analyzer.py:341-383 | the corrected listing never fails on an existing folder and keeps the missing-folder and not-a-folder errors |
| Listing.ListDatedFilesSound | diary_analyzer.py:363-378 | the corrected listing holds exactly the dated names, each once per occurrence, in date order |
| Listing.ListingsAgree | diary_analyzer.py:363-378 | both listings agree whenever the as-written one succeeds |
| Listing.ItemDate | diary_analyzer.py:400-402 | a history item adds its `fecha` exactly when it is a dict holding a hashable one, nothing exactly when the membership test is False, and raises otherwise |
| Listing.DatesOfExact | diary_analyzer.py:399-405 | the collected dates are exactly the `fecha` values of the dict items |
| Listing.DatesOfFails | diary_analyzer.py:396-409 | the collection fails exactly when some item raises |
| Listing.ProcessedDates | diary_analyzer.py:386-409 | an unreadable history or any raise in the loop gives the empty set; otherwise the collected dates |
| Listing.DatesOfStaysNone | diary_analyzer.py:400-402 | once a prefix raises, the whole history raises |
| Listing.Unprocessed | diary_analyzer.py:429-432 | a file is kept exactly when it is listed and its date is not processed |
| Listing.FilterKeepsOrder | diary_analyzer.py:429-432 | filtering a date-ordered list keeps it date-ordered |
| Listing.NothingProcessedAllPending | diary_analyzer.py:407-409 | with no processed dates every file is pending |
| Listing.PendingFiles | diary_analyzer.py:412-435 | the as-written listing's errors propagate, an impossible day's among them; otherwise the result is the listing filtered by the processed dates (an unreadable history gives the empty set), so each pending file keeps its multiplicity and its place in date order |
| Listing.ImpossibleDayBlocksPending | diary_analyzer.py:363-378 | any folder holding `31-02-2024.md` fails to list, so it has no pending files |
| Retry.Respond | diary_analyzer.py:46-48 | no answer is a transport error, a 4xx or 5xx status raises, any other status is the response |
| Retry.FirstNotRateLimited | diary_analyzer.py:38-48 | the attempt found is the first whose answer is not 429; when there is none, every attempt answered 429 |
| Retry.PostWithRetry | diary_analyzer.py:28-63 | the first answer other than 429 decides the call after exactly that many requests; with every answer 429, all `max_retries` requests are made and the call fails; each wait is `base * 2^(n-1)` plus at most 0.5 s |
| Retry.BackoffTotalClosedForm | diary_analyzer.py:51 | `n` doubling waits add up to `base * (2^n - 1)` |
| Retry.TotalSleepBounds | diary_analyzer.py:51-61 | the total sleep lies between the deterministic back-off and that plus 0.5 s per wait |
| VectorIndex.TextsOf | backend/app/modules/journal/core/embedding_generator.py:124 | the texts exist exactly when every chunk is a dict with `text`, and are those texts, in order |
| VectorIndex.EmbedAll | backend/app/modules/journal/core/embedding_generator.py:74-84 | one vector per text, each the encoder's vector for that text, or a failure exactly when the encoder fails on one |
| VectorIndex.VectorIndexer.constructor | backend/app/modules/journal/core/embedding_generator.py:47-60 | a fresh indexer has no index and no metadata |
| VectorIndex.VectorIndexer.CreateIndex | backend/app/modules/journal/core/embedding_generator.py:88-93 | a fresh index holds exactly the embeddings; the metadata is unchanged |
| VectorIndex.VectorIndexer.Save | backend/app/modules/journal/core/embedding_generator.py:97-108 | fails exactly when there is no index; otherwise writes the index and the metadata |
| VectorIndex.VectorIndexer.IndexFromChunks | backend/app/modules/journal/core/embedding_generator.py:112-129 | a load failure or a chunk without text changes nothing; an encoder failure leaves the new metadata next to the old index; on success the metadata is the corpus, vector `i` is the embedding of chunk `i`'s text, and both are saved |
| QueryEngine.PyIndex | backend/app/modules/journal/core/query_engine.py:87 | `metadata[idx]` reads a position exactly when `-n <= idx < n`, counting negative indices from the end |
| QueryEngine.Hit | backend/app/modules/journal/core/query_engine.py:87-89 | a result exists exactly when the record is a dict; it is the record with `rank` and `score` added and every other field kept |
| QueryEngine.RankedFrom | backend/app/modules/journal/core/query_engine.py:85-93 | the search succeeds exactly when every position succeeds, and then has one result per position, in order |
| QueryEngine.FirstErrorDecides | backend/app/modules/journal/core/query_engine.py:86-90 | the first failing position decides the error of the whole search |
| QueryEngine.SearchResults | backend/app/modules/journal/core/query_engine.py:85-93 | result `i` is the record at `indices[i]` with `rank == i + 1` and `score == scores[i]` |
| QueryEngine.RanksFollowScores | backend/app/modules/journal/core/query_engine.py:83-90 | when the index answers in non-increasing score order, the ranks follow the scores |
| QueryEngine.PaddingReadsLastRecord | backend/app/modules/journal/core/query_engine.py:86-87 | the `-1` a short index pads its answer with reads the last stored record |
| QueryEngine.OutOfRangeFails | backend/app/modules/journal/core/query_engine.py:87 | a position outside the records, even counted from the end, fails the search |
| QueryEngine.EntryDate | backend/app/modules/journal/core/query_engine.py:104 | the corrected label agrees with the as-written one whenever the record has a top-level `date` |
| QueryEngine.Block | backend/app/modules/journal/core/query_engine.py:103-106 | a block exists exactly when the result has `text`, and is the date line followed by the text |
| QueryEngine.Blocks | backend/app/modules/journal/core/query_engine.py:102-107 | one block per result, in order, or a KeyError exactly when some result has no `text` |
| QueryEngine.NoResultsNoContext | backend/app/modules/journal/core/query_engine.py:109 | no results give the empty context |
| QueryEngine.ContextJoinsBlocks | backend/app/modules/journal/core/query_engine.py:101-109 | for any number of results that all have `text`, the context is their `[Fecha: …]` blocks, in result order, joined by the rule line |
| QueryEngine.ContextAppend | backend/app/modules/journal/core/query_engine.py:101-109 | the context of two non-empty result lists in a row is the two contexts with one rule line between |
| QueryEngine.IndexedRecordLabelledNA | backend/app/modules/journal/core/query_engine.py:104 | every enriched record keeps its date only under `metadata.date`, so the as-written label is `N/A`; the corrected label shows the entry date |
| QueryEngine.DiarioQueryEngine.constructor | backend/app/modules/journal/core/query_engine.py:41-60 | the engine holds the loaded index and records |
| QueryEngine.DiarioQueryEngine.Search | backend/app/modules/journal/core/query_engine.py:75-93 | the result loop computes the ranked results or the first error |
| QueryEngine.DiarioQueryEngine.BuildContext | backend/app/modules/journal/core/query_engine.py:97-109 | the block loop computes the context or the KeyError |
| RagChat.LastN | backend/app/modules/journal/core/rag_chat_engine_api.py:147 | `history[-n:]` has `min(n, len)` messages and is a suffix of the history |
| RagChat.PromptShape | backend/app/modules/journal/core/rag_chat_engine_api.py:138-160 | the request starts with the system prompt, carries the last at most six history messages in order, and ends with the question and its context: at most eight messages |
| RagChat.NextPromptCarriesTurn | backend/app/modules/journal/core/rag_chat_engine_api.py:162-191 | after an answered turn, the next request carries the question and the answer just before the new question |
| RagChat.DiarioRAGChat.constructor | backend/app/modules/journal/core/rag_chat_engine_api.py:133-136 | a session starts with an empty history |
| RagChat.DiarioRAGChat.BuildPrompt | backend/app/modules/journal/core/rag_chat_engine_api.py:138-160 | a retrieval error propagates; otherwise the request is the prompt framed around the retrieved context, each passage labelled as `construir_contexto` labels it, by the record's top-level `date` (so `N/A` for every enriched record) |
| RagChat.DiarioRAGChat.Ask | backend/app/modules/journal/core/rag_chat_engine_api.py:162-191 | a retrieval or request failure is an error and leaves the history as it was; an answer is returned and appended to the history after the question; the request sent is BuildPrompt's, with the top-level `date` label |

## Left out

- Percentages in the weekly trends (`round(count / total * 100)`, stats.py) are kept as `Share(count, total)`; float division and banker's rounding are not modelled.
- `datetime.now()` and `date.today()` are a `today` parameter; `time.sleep` is returned: by Retry.PostWithRetry as the list of its waits, by LlmChunker.GenerateChunks as the attempts after which it paused for one second; and `random.uniform(0, 0.5)` is a nondeterministic choice of 0 to 500 milliseconds.
- Retry.PostWithRetry: delays are whole milliseconds; a fractional `base_delay` in seconds is not modelled.
- Iterating a non-empty dict where the program expects a list (Python yields its keys) is modelled as an error, because Dafny maps have no insertion order; only malformed model output or files reach it.
- The first validation loop of the statistics endpoint (stats.py:49-52) is not modelled: it raises only on an entry that is not a dict, and the second loop raises on every such entry too, so the endpoint's outcome is the same. The second loop also raises on inputs the first lets through, such as a truthy non-iterable `emotions`.
- The system prompt text and the analysis prompts are not reproduced; they are opaque strings.
- The HTTP calls to the language model (`analizar_con_llm`, the request half of `chunkear_con_llm`), the SentenceTransformer encoder, FAISS and `json.loads` are oracles. The batch encoder is treated as elementwise: vector i depends only on text i.
- The nearest-neighbour search itself and the query embedding are inputs: the search is a function from the question and `k` to a `(scores, indices)` row.
- File and database I/O: reading entries, globbing, the JSON reads and writes, and SQLModel sessions are modelled as in-memory folders, stored JSON values and tables. A JSON write followed by a read is assumed to give back the same value.
- SQLAlchemy flush order, SQL NULL and column typing are not modelled; autoincrement ids are a `nextId` counter.
- DiaryService.JournalService.ReplaceRows: the deletion of an existing analysis is applied before the new analysis is added. SQLAlchemy's unit of work emits a table's INSERTs before its DELETEs, and `entry_id` is unique (backend/app/modules/journal/models.py:17), so the autoflush of the chunk query (backend/app/modules/journal/services/diary_service.py:111) should raise IntegrityError when an entry that already has an analysis is processed again. The `except` at line 159 of that file swallows it: nothing is committed and the legacy files and the index are not written. The model does not capture this failure; it replaces the analysis and the rows.
- DiaryService.JournalService.ProcessDiaryEntry: calls ReplaceRows, so re-processing an entry that already has an analysis succeeds in the model and runs the legacy steps, where the program should stop at that IntegrityError, commit nothing and write no legacy file.
- The markdown backup written by `save_entry` (diary_service.py:49-51) is not modelled; it affects no table.
- The background-task scheduling of `process_diary_entry` is not modelled; each call is one sequential step.
- `str()` of floats, lists and dicts is rendered as a fixed marker; only strings, integers, booleans and None are rendered exactly.
- Calendar.ParseIso: strptime builds `%Y` as `\d\d\d\d` and `%d` with the alternative `[12]\d`, and in Python `\d` matches any Unicode decimal digit, which `int()` then reads (`٢٠٢٤-01-01` is 2024-01-01). The model takes ASCII digits only, so a date spelled with other decimal digits is None here where Python accepts it. Every date parse built on it inherits this: Calendar.ParseEither, the migration's stems, `fecha` values and chunk dates, the statistics' grouping, and SaveEntry, ReadEntry and ProcessDiaryEntry.
- Calendar.ParseDmy: the same restriction on `%d-%m-%Y`: `01-01-٢٠٢٤`, which Python reads as 2024-01-01, is None here, and so is every file stem or date that relies on it.
- `\d` in the file-name pattern matches ASCII digits only (Python also matches other Unicode digits); `lower()` and `capitalize()` are exact for ASCII and Latin-1 only (title case included: `µ` becomes the Greek capital mu and `ß` becomes `Ss`).
- The 80% coverage test (`inter / orig >= 0.8`) is computed exactly as `5 * inter >= 4 * orig`, with no float rounding.
- VectorIndex.IndexFromChunks: a corpus that is not a list (a dict or a string) is a load failure; Python would iterate it.
- Logging is not modelled, including the warnings of `parsear_analisis` on missing keys or an invalid intensity.
- `procesar_carpeta_diarios` and `analizar_diario_individual` (the folder driver and its counters) are not part of this model; their steps are modelled one by one.
- backend/app/services/diary_service.py (the older file-based service), rag_chat_engine.py, the API routers, the launcher and the frontend are not part of this model.
- The service imports a backend copy of diary_analyzer that is not part of this model; the root diary_analyzer.py, which has the same functions, stands in for it.

## Findings

| source | as written | input that shows it | evidently intended | confidence | as-written member | corrected member |
|---|---|---|---|---|---|---|
| diary_analyzer.py:373-375 | the sort key parses every listed name with `strptime`, and the name check accepts any `DD-DD-DDDD.md`, so one impossible day makes the whole listing raise | a folder holding `31-02-2024.md` and `01-01-2024.md` | names that are not real days are skipped, like other invalid names | not executed | Listing.ImpossibleDayBreaksListing | Listing.ListDatedFilesSound |
| backend/app/modules/journal/core/query_engine.py:104 | the context label reads the top-level `date`, but enriched records keep it under `metadata.date`, so every indexed record is labelled `N/A`, in the chat's requests too | any record built by enrichment, e.g. one dated `01-01-2024` | label each passage with the entry date | not executed | QueryEngine.IndexedRecordLabelledNA | QueryEngine.EntryDate |
| scripts/migrate_data.py:129-135 | the duplicate lookup uses `c.get("index")` (None when absent) while the row stores `c.get("index", 0)`, so a chunk without `index` is found nowhere and is inserted again on every run | a corpus with one chunk `{"text": "x", "metadata": {"date": "2024-01-01"}}` whose entry exists, migrated twice | look up with the same default as the stored row, so a second run adds nothing | not executed | Migration.IndexlessChunkAddedTwice | Migration.MigrateIdempotent |
