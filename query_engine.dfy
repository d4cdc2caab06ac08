/**
 * `DiarioQueryEngine`: turns the nearest-neighbour answer of the vector
 * index into ranked copies of the stored chunk records, and those records
 * into the context text handed to the language model. The query embedding
 * and the index search are outside the model: `Search` receives the first
 * row of the `(scores, indices)` answer.
 */
module QueryEngine {
  import opened Wrappers
  import opened Text
  import opened Json
  import opened VectorIndex
  import Enrich

  datatype QueryError =
    | BadPosition  // IndexError: the position is outside the metadata, even counted from the end
    | NotARecord   // the stored record is not a dict (`.copy()` or the item assignment raises)
    | NoScore      // IndexError: the score row is shorter than the index row
    | NoTextField  // KeyError: a result without `text`

  /** `xs[idx]` with Python's negative indexing: the position it reads, None where it raises. */
  function PyIndex(n: nat, idx: int): (r: Option<nat>)
    ensures r.Some? <==> -(n as int) <= idx < n
    ensures r.Some? ==> r.value < n
    ensures r.Some? && idx >= 0 ==> r.value == idx
    ensures r.Some? && idx < 0 ==> r.value == n + idx
  {
    if 0 <= idx < n then Some(idx) else if -(n as int) <= idx < 0 then Some(n + idx) else None
  }

  /** A result record: a shallow copy of the stored record with its rank and score added. */
  function Hit(record: Json, rank: nat, score: real): (r: Result<Obj, QueryError>)
    ensures r.Ok? <==> record.JObj?
    ensures r.Ok? ==> r.value.Keys == record.fields.Keys + {"rank", "score"}
    ensures r.Ok? ==> r.value["rank"] == JInt(rank) && r.value["score"] == JFloat(score)
    ensures r.Ok? ==> forall k :: k in record.fields && k != "rank" && k != "score" ==> r.value[k] == record.fields[k]
  {
    if !record.JObj? then Err(NotARecord)
    else Ok(record.fields["rank" := JInt(rank)]["score" := JFloat(score)])
  }

  /** The result for position `i` of the search answer, or the error the loop raises there. */
  function HitAt(metadata: seq<Json>, scores: seq<real>, indices: seq<int>, i: nat): (r: Result<Obj, QueryError>)
    requires i < |indices|
  {
    match PyIndex(|metadata|, indices[i])
    case None => Err(BadPosition)
    case Some(p) =>
      if !metadata[p].JObj? then Err(NotARecord)
      else if i >= |scores| then Err(NoScore)
      else Hit(metadata[p], i + 1, scores[i])
  }

  /** The results from position `k` on: all of them, or the first error. */
  function RankedFrom(metadata: seq<Json>, scores: seq<real>, indices: seq<int>, k: nat): (r: Result<seq<Obj>, QueryError>)
    requires k <= |indices|
    ensures r.Ok? <==> forall j :: k <= j < |indices| ==> HitAt(metadata, scores, indices, j).Ok?
    ensures r.Ok? ==> |r.value| == |indices| - k
    ensures r.Ok? ==> forall j :: k <= j < |indices| ==> r.value[j - k] == HitAt(metadata, scores, indices, j).value
    decreases |indices| - k
  {
    if k == |indices| then Ok([])
    else
      match HitAt(metadata, scores, indices, k)
      case Err(e) => Err(e)
      case Ok(h) =>
        match RankedFrom(metadata, scores, indices, k + 1)
        case Err(e) => Err(e)
        case Ok(rest) => Ok([h] + rest)
  }

  /** The first failing position decides the error of the whole search. */
  lemma {:induction false} FirstErrorDecides(metadata: seq<Json>, scores: seq<real>, indices: seq<int>, m: nat, k: nat)
    requires m <= k < |indices| && HitAt(metadata, scores, indices, k).Err?
    requires forall j :: m <= j < k ==> HitAt(metadata, scores, indices, j).Ok?
    ensures RankedFrom(metadata, scores, indices, m) == Err(HitAt(metadata, scores, indices, k).error)
    decreases k - m
  {
    if m < k {
      FirstErrorDecides(metadata, scores, indices, m + 1, k);
    }
  }

  /**
   * Result `i` of a successful search is the record at `indices[i]` (counted
   * from the end when negative) with `rank == i + 1` and `score == scores[i]`.
   */
  lemma SearchResults(metadata: seq<Json>, scores: seq<real>, indices: seq<int>)
    requires RankedFrom(metadata, scores, indices, 0).Ok?
    ensures var r := RankedFrom(metadata, scores, indices, 0).value;
      && |r| == |indices| && |indices| <= |scores|
      && forall i :: 0 <= i < |r| ==>
        && PyIndex(|metadata|, indices[i]).Some?
        && var record := metadata[PyIndex(|metadata|, indices[i]).value];
        && record.JObj?
        && r[i].Keys == record.fields.Keys + {"rank", "score"}
        && r[i]["rank"] == JInt(i + 1) && r[i]["score"] == JFloat(scores[i])
        && (forall key :: key in record.fields && key != "rank" && key != "score" ==> r[i][key] == record.fields[key])
  {
    var r := RankedFrom(metadata, scores, indices, 0).value;
    if indices != [] {
      assert HitAt(metadata, scores, indices, |indices| - 1).Ok?;
    }
    forall i | 0 <= i < |r|
      ensures PyIndex(|metadata|, indices[i]).Some? && metadata[PyIndex(|metadata|, indices[i]).value].JObj?
      ensures r[i] == Hit(metadata[PyIndex(|metadata|, indices[i]).value], i + 1, scores[i]).value
    {
      assert r[i] == HitAt(metadata, scores, indices, i).value;
    }
  }

  /** The score a result carries. */
  function ScoreOf(result: Obj): real {
    if "score" in result && result["score"].JFloat? then result["score"].r else 0.0
  }

  /** When the index answers in non-increasing score order, the ranks follow the scores. */
  lemma RanksFollowScores(metadata: seq<Json>, scores: seq<real>, indices: seq<int>)
    requires RankedFrom(metadata, scores, indices, 0).Ok?
    requires forall i, j :: 0 <= i < j < |scores| ==> scores[i] >= scores[j]
    ensures var r := RankedFrom(metadata, scores, indices, 0).value;
      forall i, j :: 0 <= i < j < |r| ==> ScoreOf(r[i]) >= ScoreOf(r[j])
  {
    SearchResults(metadata, scores, indices);
  }

  /** The `-1` a short index pads its answer with reads the last stored record. */
  lemma PaddingReadsLastRecord(metadata: seq<Json>, scores: seq<real>, indices: seq<int>, i: nat)
    requires RankedFrom(metadata, scores, indices, 0).Ok?
    requires i < |indices| && indices[i] == -1
    ensures metadata != [] && i < |scores|
    ensures var record := metadata[|metadata| - 1];
      && record.JObj?
      && RankedFrom(metadata, scores, indices, 0).value[i] == record.fields["rank" := JInt(i + 1)]["score" := JFloat(scores[i])]
  {
    var hit := HitAt(metadata, scores, indices, i);
    assert hit.Ok?;
    assert RankedFrom(metadata, scores, indices, 0).value[i] == hit.value;
    assert PyIndex(|metadata|, -1) == Some(|metadata| - 1);
  }

  /** A position outside the stored records, even counted from the end, fails the search. */
  lemma OutOfRangeFails(metadata: seq<Json>, scores: seq<real>, indices: seq<int>, i: nat)
    requires i < |indices| && (indices[i] >= |metadata| || indices[i] < -(|metadata| as int))
    ensures RankedFrom(metadata, scores, indices, 0).Err?
  {
    assert HitAt(metadata, scores, indices, i).Err?;
  }

  // ---------------------------------------------------------------- the context text

  /** `chunk.get('date', 'N/A')` as written: only a top-level `date` is shown. */
  function TopLevelDate(chunk: Obj): string {
    Display(Get(chunk, "date", JStr("N/A")))
  }

  /**
   * The label evidently intended: the top-level `date`, else the entry date
   * that enrichment stores under `metadata.date`, else `N/A`.
   */
  function EntryDate(chunk: Obj): (r: string)
    ensures "date" in chunk ==> r == TopLevelDate(chunk)
  {
    if "date" in chunk then Display(chunk["date"])
    else if "metadata" in chunk && chunk["metadata"].JObj? && "date" in chunk["metadata"].fields then
      Display(chunk["metadata"].fields["date"])
    else "N/A"
  }

  const Separator := "\n\n---\n\n"

  /** One block of the context: the date line, then the text; KeyError without `text`. */
  function Block(chunk: Obj, dateOf: Obj -> string): (r: Result<string, QueryError>)
    ensures r.Ok? <==> "text" in chunk
    ensures r.Ok? ==> r.value == "[Fecha: " + dateOf(chunk) + "]\n" + Display(chunk["text"])
  {
    if "text" !in chunk then Err(NoTextField)
    else Ok("[Fecha: " + dateOf(chunk) + "]\n" + Display(chunk["text"]))
  }

  /** The blocks of all results, in order, or the first error. */
  function Blocks(results: seq<Obj>, dateOf: Obj -> string): (r: Result<seq<string>, QueryError>)
    ensures r.Ok? <==> forall i :: 0 <= i < |results| ==> "text" in results[i]
    ensures r.Ok? ==> |r.value| == |results|
    ensures r.Ok? ==> forall i :: 0 <= i < |results| ==> Block(results[i], dateOf) == Ok(r.value[i])
    ensures r.Err? ==> r.error == NoTextField
  {
    if results == [] then Ok([])
    else
      match Block(results[0], dateOf)
      case Err(e) => Err(e)
      case Ok(b) =>
        match Blocks(results[1..], dateOf)
        case Err(e) => Err(e)
        case Ok(rest) =>
          assert forall i :: 1 <= i < |results| ==> results[i] == results[1..][i - 1];
          Ok([b] + rest)
  }

  /** `construir_contexto(resultados)` for a given date label. */
  function Context(results: seq<Obj>, dateOf: Obj -> string): (r: Result<string, QueryError>)
  {
    match Blocks(results, dateOf)
    case Err(e) => Err(e)
    case Ok(bs) => Ok(Join(Separator, bs))
  }

  /** No results give the empty context. */
  lemma NoResultsNoContext(dateOf: Obj -> string)
    ensures Context([], dateOf) == Ok("")
  {
  }

  /** The text of one block, for a result that has `text`. */
  function BlockText(chunk: Obj, dateOf: Obj -> string): string
    requires "text" in chunk
  {
    "[Fecha: " + dateOf(chunk) + "]\n" + Display(chunk["text"])
  }

  /** For any number of results that all have `text`, the context is their blocks, in result order, joined by the rule line. */
  lemma ContextJoinsBlocks(results: seq<Obj>, dateOf: Obj -> string)
    requires forall i :: 0 <= i < |results| ==> "text" in results[i]
    ensures Context(results, dateOf)
         == Ok(Join(Separator, seq(|results|, i requires 0 <= i < |results| => BlockText(results[i], dateOf))))
  {
    var bs := Blocks(results, dateOf).value;
    assert bs == seq(|results|, i requires 0 <= i < |results| => BlockText(results[i], dateOf));
  }

  /** The context of two non-empty result lists in a row is the two contexts with one rule line between. */
  lemma ContextAppend(a: seq<Obj>, b: seq<Obj>, dateOf: Obj -> string)
    requires a != [] && b != []
    requires Context(a, dateOf).Ok? && Context(b, dateOf).Ok?
    ensures Context(a + b, dateOf) == Ok(Context(a, dateOf).value + Separator + Context(b, dateOf).value)
  {
    var ba, bb := Blocks(a, dateOf).value, Blocks(b, dateOf).value;
    assert forall i :: 0 <= i < |a + b| ==> "text" in (a + b)[i] by {
      forall i | 0 <= i < |a + b| ensures "text" in (a + b)[i] {
        if i >= |a| {
          assert (a + b)[i] == b[i - |a|];
        }
      }
    }
    var bab := Blocks(a + b, dateOf).value;
    assert bab == ba + bb by {
      forall i | 0 <= i < |bab| ensures bab[i] == (ba + bb)[i] {
        if i >= |a| {
          assert (a + b)[i] == b[i - |a|];
        }
      }
    }
    JoinAppend(Separator, ba, bb);
  }

  /**
   * Every record the enrichment step produces carries its date only under
   * `metadata.date`, so the context as written labels it `N/A`; the intended
   * label shows the entry date.
   */
  lemma IndexedRecordLabelledNA(entryId: string, index: Json, text: string, typ: Json, metadata: Obj)
    requires "date" in metadata
    ensures var record := Enrich.Record(entryId, index, text, typ, metadata);
      && TopLevelDate(record) == "N/A"
      && EntryDate(record) == Display(metadata["date"])
      && Block(record, TopLevelDate) == Ok("[Fecha: N/A]\n" + text)
  {
    var record := Enrich.Record(entryId, index, text, typ, metadata);
    assert "date" != "text" && "date" != "type" && "date" != "index" && "date" != "metadata";
    assert "date" !in Enrich.RecordKeys;
    assert "date" !in record;
    assert TopLevelDate(record) == "N/A";
    assert "[Fecha: " + "N/A" + "]\n" == "[Fecha: N/A]\n";
  }

  class DiarioQueryEngine {
    /** The index and the records loaded at start-up; neither changes afterwards. */
    const index: seq<Vector>
    const metadata: seq<Json>

    constructor(index: seq<Vector>, metadata: seq<Json>)
      ensures this.index == index && this.metadata == metadata
    {
      this.index := index;
      this.metadata := metadata;
    }

    /**
     * `buscar(query, k)` after the search: one result per position of the
     * index row, in that order, copied from the record it points at.
     */
    method Search(scores: seq<real>, indices: seq<int>) returns (r: Result<seq<Obj>, QueryError>)
      ensures r == RankedFrom(metadata, scores, indices, 0)
    {
      var results: seq<Obj> := [];
      var rank := 0;
      while rank < |indices|
        invariant 0 <= rank <= |indices| && |results| == rank
        invariant forall j :: 0 <= j < rank ==>
          HitAt(metadata, scores, indices, j).Ok? && results[j] == HitAt(metadata, scores, indices, j).value
      {
        var idx := indices[rank];
        var p := PyIndex(|metadata|, idx);
        if p.None? {
          r := Err(BadPosition);
          assert HitAt(metadata, scores, indices, rank) == Err(BadPosition);
          FirstErrorDecides(metadata, scores, indices, 0, rank);
          return;
        }
        var record := metadata[p.value];
        if !record.JObj? {
          r := Err(NotARecord);
          assert HitAt(metadata, scores, indices, rank) == Err(NotARecord);
          FirstErrorDecides(metadata, scores, indices, 0, rank);
          return;
        }
        if rank >= |scores| {
          r := Err(NoScore);
          assert HitAt(metadata, scores, indices, rank) == Err(NoScore);
          FirstErrorDecides(metadata, scores, indices, 0, rank);
          return;
        }
        var chunk := record.fields;
        chunk := chunk["rank" := JInt(rank + 1)];
        chunk := chunk["score" := JFloat(scores[rank])];
        results := results + [chunk];
        rank := rank + 1;
      }
      var all := RankedFrom(metadata, scores, indices, 0);
      assert all.Ok? && |all.value| == |results|;
      assert forall j :: 0 <= j < |results| ==> all.value[j] == results[j];
      assert all.value == results;
      r := Ok(results);
    }

    /** `construir_contexto(resultados)`: the blocks joined by a rule line; no results give "". */
    method BuildContext(results: seq<Obj>, dateOf: Obj -> string) returns (r: Result<string, QueryError>)
      ensures r == Context(results, dateOf)
    {
      var blocks: seq<string> := [];
      var k := 0;
      while k < |results|
        invariant 0 <= k <= |results| && |blocks| == k
        invariant forall j :: 0 <= j < k ==> Block(results[j], dateOf) == Ok(blocks[j])
      {
        var chunk := results[k];
        if "text" !in chunk {
          assert Blocks(results, dateOf).Err?;
          return Err(NoTextField);
        }
        var block := "[Fecha: " + dateOf(chunk) + "]\n" + Display(chunk["text"]);
        blocks := blocks + [block];
        k := k + 1;
      }
      var all := Blocks(results, dateOf);
      assert all.Ok? && |all.value| == |blocks|;
      assert forall j :: 0 <= j < |blocks| ==> all.value[j] == blocks[j];
      assert all.value == blocks;
      r := Ok(Join(Separator, blocks));
    }
  }
}
