/**
 * Chunking by a language model. The older generation (`generar_chunks_con_llm`)
 * asks the model up to `max_intentos` times, accepts the first chunk list
 * that passes `validar_chunks` (known types, non-blank texts, 80% word
 * coverage) and otherwise falls back to the whole text as one chunk. The
 * analyzer's generation (`chunkear_con_llm`) makes one call and raises on
 * any failure. Model replies are an oracle (None when the call raised) and
 * `json.loads` is a parameter (None when it raised).
 */
module LlmChunker {
  import opened Wrappers
  import opened Text
  import opened Json
  import opened Extract

  /** Raised inside `validar_chunks`: an unhashable type or a non-string text. */
  datatype ValidationError = ValidationRaised

  datatype ChunkError =
    | ChunkingFailed  // ModelError: the model call or the decoding of its reply failed

  /** What happens once every attempt has failed: the older chunker falls back, the analyzer's raises. */
  datatype FailurePolicy = Fallback | Raise

  const ValidTypes: set<Json> := {JStr("hechos"), JStr("emociones"), JStr("reflexion"), JStr("intencion"), JStr("mixto")}

  // ---------------------------------------------------------------- validar_chunks

  /** The distinct lower-cased whitespace tokens of a text. */
  function WordSet(s: string): set<string> {
    set w | w in Words(Lower(s))
  }

  /** At least 80% of the original's distinct words reappear in the chunks (skipped when it has none). */
  predicate Covers(original: string, chunkText: string) {
    var orig := WordSet(original);
    orig == {} || 5 * |orig * WordSet(chunkText)| >= 4 * |orig|
  }

  function Texts(chunks: seq<Obj>): seq<string>
    requires forall k :: 0 <= k < |chunks| ==> ChunkOk(chunks[k])
  {
    if chunks == [] then []
    else
      assert ChunkOk(chunks[0]);
      assert forall k :: 0 <= k < |chunks| - 1 ==> chunks[1..][k] == chunks[k + 1];
      [chunks[0]["text"].s] + Texts(chunks[1..])
  }

  /** A chunk passes the per-chunk checks: a known type and a non-blank string text. */
  predicate ChunkOk(c: Obj) {
    "type" in c && c["type"] in ValidTypes && "text" in c && c["text"].JStr? && !AllSpace(c["text"].s)
  }

  /** The checks on one chunk: None when it passes, else the verdict (False, or a raise). */
  function ChunkVerdict(c: Obj): (r: Option<Result<bool, ValidationError>>)
    ensures r.None? <==> ChunkOk(c)
    ensures r.Some? ==> r.value != Ok(true)
  {
    var ty := Get(c, "type", JNull);
    var text := Get(c, "text", JStr(""));
    if !Hashable(ty) then Some(Err(ValidationRaised))
    else if ty !in ValidTypes then Some(Ok(false))
    else if !text.JStr? then Some(Err(ValidationRaised))
    else if Strip(text.s) == [] then Some(Ok(false))
    else None
  }

  /** The per-chunk checks from chunk `k` on: the first verdict, None when all pass. */
  function CheckFrom(chunks: seq<Obj>, k: nat): (r: Option<Result<bool, ValidationError>>)
    requires k <= |chunks|
    ensures r.None? <==> forall j :: k <= j < |chunks| ==> ChunkOk(chunks[j])
    ensures r.Some? ==> r.value != Ok(true)
    decreases |chunks| - k
  {
    if k == |chunks| then None
    else
      var v := ChunkVerdict(chunks[k]);
      if v.Some? then v else CheckFrom(chunks, k + 1)
  }

  /** `validar_chunks(chunks, texto_original)`; an Err is an exception raised by the check itself. */
  function Validation(chunks: seq<Obj>, original: string): (r: Result<bool, ValidationError>)
  {
    if chunks == [] then Ok(false)
    else
      match CheckFrom(chunks, 0)
      case Some(verdict) => verdict
      case None => Ok(Covers(original, Join(" ", Texts(chunks))))
  }

  /** A chunk list is accepted exactly when it is non-empty, every chunk has a known type and non-blank text, and the coverage holds. */
  lemma ValidationAccepts(chunks: seq<Obj>, original: string)
    ensures Validation(chunks, original) == Ok(true) <==>
      && chunks != []
      && (forall j :: 0 <= j < |chunks| ==> ChunkOk(chunks[j]))
      && Covers(original, Join(" ", Texts(chunks)))
  {
  }

  /** The check loop of `validar_chunks`, with its early returns. */
  method ValidateChunks(chunks: seq<Obj>, original: string) returns (r: Result<bool, ValidationError>)
    ensures r == Validation(chunks, original)
  {
    if chunks == [] {
      return Ok(false);
    }
    var k := 0;
    while k < |chunks|
      invariant 0 <= k <= |chunks|
      invariant CheckFrom(chunks, 0) == CheckFrom(chunks, k)
    {
      var ty := Get(chunks[k], "type", JNull);
      if !Hashable(ty) {
        return Err(ValidationRaised);
      }
      if ty !in ValidTypes {
        return Ok(false);
      }
      var text := Get(chunks[k], "text", JStr(""));
      if !text.JStr? {
        return Err(ValidationRaised);
      }
      if Strip(text.s) == [] {
        return Ok(false);
      }
      assert ChunkVerdict(chunks[k]).None?;
      k := k + 1;
    }
    r := Ok(Covers(original, Join(" ", Texts(chunks))));
  }

  /** Every whole-text chunk covers the text it came from. */
  lemma WholeTextCovers(texto: string)
    ensures Covers(texto, Join(" ", [texto]))
  {
    var orig := WordSet(texto);
    assert orig * orig == orig;
  }

  // ---------------------------------------------------------------- generar_chunks_con_llm

  /** `setdefault('type', 'mixto')` and `setdefault('text', '')`. */
  function WithDefaults(chunk: Obj): (r: Obj)
    ensures r.Keys == chunk.Keys + {"type", "text"}
    ensures forall k :: k in chunk ==> r[k] == chunk[k]
    ensures "type" !in chunk ==> r["type"] == JStr("mixto")
    ensures "text" !in chunk ==> r["text"] == JStr("")
  {
    var t := if "type" in chunk then chunk else chunk["type" := JStr("mixto")];
    if "text" in t then t else t["text" := JStr("")]
  }

  /** The model's chunk list with defaults filled in; None when an item is not a dict. */
  function Prepared(items: seq<Json>): (r: Option<seq<Obj>>)
    ensures r.Some? ==> (|r.value| == |items|
      && forall k :: 0 <= k < |items| ==> items[k].JObj? && r.value[k] == WithDefaults(items[k].fields))
    ensures (forall k :: 0 <= k < |items| ==> items[k].JObj?) ==> r.Some?
  {
    if items == [] then Some([])
    else if !items[0].JObj? then None
    else
      assert forall k :: 1 <= k < |items| ==> items[k] == items[1..][k - 1];
      match Prepared(items[1..])
      case None => None
      case Some(rest) => Some([WithDefaults(items[0].fields)] + rest)
  }

  /** The length of the run of dicts the item list starts with. */
  function DictRun(items: seq<Json>): (n: nat)
    ensures n <= |items|
    ensures forall k :: 0 <= k < n ==> items[k].JObj?
    ensures n < |items| ==> !items[n].JObj?
  {
    if items == [] || !items[0].JObj? then 0
    else
      assert forall k :: 1 <= k < |items| ==> items[k] == items[1..][k - 1];
      1 + DictRun(items[1..])
  }

  /**
   * Whether the `setdefault` step raises on an item. `in` tests a dict's keys,
   * a string's substrings and a list's members, and raises TypeError on None,
   * booleans and numbers; a non-dict reaches `setdefault`, and raises
   * AttributeError, unless both `type` and `text` are found in it.
   */
  predicate SetDefaultRaises(item: Json) {
    match item
    case JObj(_) => false
    case JStr(s) => !(Contains(s, "type") && Contains(s, "text"))
    case JArr(xs) => !(JStr("type") in xs && JStr("text") in xs)
    case _ => true
  }

  /** What one attempt comes to: chunks that pass validation, a rejection by `validar_chunks`, or an exception. */
  datatype Outcome = Accepted(chunks: seq<Obj>) | Rejected | Raised

  /**
   * Steps 6 and 7 on the model's chunk list. A non-dict that survives
   * `setdefault` makes `validar_chunks` raise at its `chunk.get`, unless a
   * dict before it has already been refused.
   */
  function ChunkListOutcome(items: seq<Json>, texto: string): (r: Outcome)
    ensures r.Accepted? <==> Prepared(items).Some? && Validation(Prepared(items).value, texto) == Ok(true)
    ensures r.Accepted? ==> r.chunks == Prepared(items).value
    ensures r.Rejected? ==> forall k :: 0 <= k < |items| ==> !SetDefaultRaises(items[k])
  {
    if exists k :: 0 <= k < |items| && SetDefaultRaises(items[k]) then Raised
    else
      var n := DictRun(items);
      assert forall k :: 0 <= k < n ==> items[..n][k] == items[k];
      var dicts := Prepared(items[..n]).value;
      if n == |items| then
        assert items[..n] == items;
        match Validation(dicts, texto)
        case Ok(true) => Accepted(dicts)
        case Ok(false) => Rejected
        case Err(_) => Raised
      else if CheckFrom(dicts, 0) == Some(Ok(false)) then Rejected
      else Raised
  }

  /**
   * One attempt on a reply: extract, decode, require a dict holding a list
   * under `chunks`, fill defaults, validate. A failed model call, extraction
   * or decoding, a reply without a `chunks` list and an exception inside the
   * checks all raise; `validar_chunks` returning False is a rejection.
   */
  function Attempt(texto: string, reply: Option<string>, parse: string -> Option<Json>): (r: Outcome)
    ensures r.Accepted? ==> r.chunks != [] && Validation(r.chunks, texto) == Ok(true)
    ensures !r.Raised? ==> (reply.Some? && ExtractJson(reply.value).Ok?
      && parse(ExtractJson(reply.value).value).Some?
      && parse(ExtractJson(reply.value).value).value.JObj?
      && "chunks" in parse(ExtractJson(reply.value).value).value.fields
      && parse(ExtractJson(reply.value).value).value.fields["chunks"].JArr?)
  {
    if reply.None? then Raised
    else match ExtractJson(reply.value)
      case Err(_) => Raised
      case Ok(jsonText) =>
        match parse(jsonText)
        case None => Raised
        case Some(data) =>
          if !data.JObj? || "chunks" !in data.fields || !data.fields["chunks"].JArr? then Raised
          else ChunkListOutcome(data.fields["chunks"].items, texto)
  }

  /** The outcome of every attempt: attempt `j` works on the `j`-th reply. */
  function Outcomes(texto: string, replies: nat -> Option<string>, parse: string -> Option<Json>): nat -> Outcome {
    (j: nat) => Attempt(texto, replies(j), parse)
  }

  /** The first attempt in `i..n-1` that is accepted, with its chunks. */
  function FirstAccepted(outcome: nat -> Outcome, i: nat, n: int): (r: Option<(nat, seq<Obj>)>)
    ensures r.Some? ==> i <= r.value.0 < n && outcome(r.value.0) == Accepted(r.value.1)
    ensures r.Some? ==> forall j :: i <= j < r.value.0 ==> !outcome(j).Accepted?
    ensures r.None? ==> forall j :: i <= j < n ==> !outcome(j).Accepted?
    decreases n - i
  {
    if i >= n then None
    else match outcome(i)
      case Accepted(chunks) => Some((i, chunks))
      case _ => FirstAccepted(outcome, i + 1, n)
  }

  /** An attempt that is accepted after only failures is the first accepted one. */
  lemma FirstAcceptedAt(outcome: nat -> Outcome, i: nat, n: int)
    requires i < n && outcome(i).Accepted?
    requires forall j :: 0 <= j < i ==> !outcome(j).Accepted?
    ensures FirstAccepted(outcome, 0, n) == Some((i, outcome(i).chunks))
  {
  }

  /** When every attempt fails, none is accepted. */
  lemma FirstAcceptedNone(outcome: nat -> Outcome, n: int)
    requires forall j :: 0 <= j < n ==> !outcome(j).Accepted?
    ensures FirstAccepted(outcome, 0, n).None?
  {
  }

  /** The single whole-text chunk. */
  function FallbackChunk(texto: string): Obj {
    map["type" := JStr("mixto"), "text" := JStr(texto)]
  }

  function AttemptLimit(maxAttempts: int): nat {
    if maxAttempts < 0 then 0 else maxAttempts
  }

  /**
   * `generar_chunks_con_llm(texto, modelo, max_intentos)`, with the choice of
   * what happens after the last failed attempt made explicit: the older
   * chunker returns the whole text as one `mixto` chunk and never raises,
   * the no-fallback policy raises. `calls` counts the model calls made, and
   * `pauses` lists the attempts after which `time.sleep(1)` ran.
   */
  method GenerateChunks(texto: string, replies: nat -> Option<string>, parse: string -> Option<Json>,
                        maxAttempts: int, policy: FailurePolicy)
    returns (r: Result<seq<Obj>, ChunkError>, calls: nat, pauses: seq<nat>)
    ensures calls <= AttemptLimit(maxAttempts)
    ensures var first := FirstAccepted(Outcomes(texto, replies, parse), 0, maxAttempts);
      first.Some? ==> r == Ok(first.value.1) && calls == first.value.0 + 1
    ensures var first := FirstAccepted(Outcomes(texto, replies, parse), 0, maxAttempts);
      first.None? ==> (calls == AttemptLimit(maxAttempts)
        && r == (if policy == Fallback then Ok([FallbackChunk(texto)]) else Err(ChunkingFailed)))
    ensures forall j: nat :: j in pauses <==>
      j < calls && j < maxAttempts - 1 && Outcomes(texto, replies, parse)(j).Raised?
    ensures forall a, b :: 0 <= a < b < |pauses| ==> pauses[a] < pauses[b]
  {
    calls := 0;
    pauses := [];
    var attempt := 0;
    ghost var outcome := Outcomes(texto, replies, parse);
    while attempt < maxAttempts
      invariant 0 <= attempt <= AttemptLimit(maxAttempts)
      invariant calls == attempt
      invariant forall j :: 0 <= j < attempt ==> !outcome(j).Accepted?
      invariant forall j: nat :: j in pauses <==> j < attempt && j < maxAttempts - 1 && outcome(j).Raised?
      invariant forall a, b :: 0 <= a < b < |pauses| ==> pauses[a] < pauses[b]
      invariant forall a :: 0 <= a < |pauses| ==> pauses[a] < attempt
    {
      var reply := replies(attempt);
      calls := calls + 1;
      var result := Attempt(texto, reply, parse);
      assert result == outcome(attempt);
      if result.Accepted? {
        FirstAcceptedAt(outcome, attempt, maxAttempts);
        forall j: nat ensures j in pauses <==> j < calls && j < maxAttempts - 1 && outcome(j).Raised? {
          if j == attempt {
            assert outcome(j).Accepted?;
          }
        }
        return Ok(result.chunks), calls, pauses;
      }
      if result.Raised? && attempt < maxAttempts - 1 {
        pauses := pauses + [attempt];
      }
      attempt := attempt + 1;
    }
    FirstAcceptedNone(outcome, maxAttempts);
    if policy == Fallback {
      r := Ok([FallbackChunk(texto)]);
    } else {
      r := Err(ChunkingFailed);
    }
  }

  /** Whatever the model answers, the older chunker returns chunks that pass validation when the text is not blank. */
  lemma FallbackPassesValidation(texto: string)
    requires !AllSpace(texto)
    ensures Validation([FallbackChunk(texto)], texto) == Ok(true)
  {
    var c := FallbackChunk(texto);
    assert Texts([c]) == [texto];
    WholeTextCovers(texto);
  }

  /** A blank text's fallback chunk itself fails validation. */
  lemma BlankFallbackFailsValidation(texto: string)
    requires AllSpace(texto)
    ensures Validation([FallbackChunk(texto)], texto) == Ok(false)
  {
  }

  // ---------------------------------------------------------------- chunkear_con_llm, after the HTTP call

  /**
   * The reply half of `chunkear_con_llm`: extract, decode, and return whatever
   * is stored under `chunks`. Every failure becomes ModelError.
   */
  function ChunksFromReply(reply: Option<string>, parse: string -> Option<Json>): (r: Result<Json, ChunkError>)
    ensures r.Ok? <==> (reply.Some? && ExtractJson(reply.value).Ok?
      && parse(ExtractJson(reply.value).value).Some?
      && parse(ExtractJson(reply.value).value).value.JObj?
      && "chunks" in parse(ExtractJson(reply.value).value).value.fields)
    ensures r.Ok? ==> r.value == parse(ExtractJson(reply.value).value).value.fields["chunks"]
  {
    if reply.None? then Err(ChunkingFailed)
    else match ExtractJson(reply.value)
      case Err(_) => Err(ChunkingFailed)
      case Ok(jsonText) =>
        match parse(jsonText)
        case None => Err(ChunkingFailed)
        case Some(data) =>
          if data.JObj? && "chunks" in data.fields then Ok(data.fields["chunks"]) else Err(ChunkingFailed)
  }

  // ---------------------------------------------------------------- parsear_analisis

  datatype AnalysisError =
    | InvalidJson   // JSONParseError from `json.loads`
    | NotAnObject   // TypeError assigning `fecha` into a list or a scalar

  const RequiredFields: set<string> := {"summary", "emotions", "topics", "people", "intensity"}

  /** The required fields that are missing; only logged. */
  function MissingFields(m: Obj): set<string> {
    RequiredFields - m.Keys
  }

  /**
   * `parsear_analisis(json_texto, fecha)`: the decoded object with `fecha`
   * set. Missing fields and an unexpected intensity are only logged.
   */
  function ParseAnalysis(decoded: Option<Json>, fecha: string): (r: Result<Obj, AnalysisError>)
    ensures decoded.None? ==> r == Err(InvalidJson)
    ensures decoded.Some? && !decoded.value.JObj? ==> r == Err(NotAnObject)
    ensures decoded.Some? && decoded.value.JObj? ==> (r.Ok?
      && r.value.Keys == decoded.value.fields.Keys + {"fecha"}
      && r.value["fecha"] == JStr(fecha)
      && forall k :: k in decoded.value.fields && k != "fecha" ==> r.value[k] == decoded.value.fields[k])
  {
    match decoded
    case None => Err(InvalidJson)
    case Some(JObj(m)) => Ok(m["fecha" := JStr(fecha)])
    case Some(_) => Err(NotAnObject)
  }
}
