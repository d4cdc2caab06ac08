/**
 * `sanitizar_chunk`: the metadata a language model attached to a chunk is
 * cut down to what the chunk's own text supports: people named in the text,
 * whitelisted emotions that the text mentions, and a valid intensity.
 */
module Sanitize {
  import opened Wrappers
  import opened Text
  import opened Json

  /** A Python TypeError or AttributeError raised while reading the metadata. */
  datatype SanitizeError = BadMetadata

  const EmotionsWhitelist: set<string> :=
    {"alegría", "tristeza", "miedo", "enojo", "ansiedad", "frustración", "calma", "confusión"}

  const Intensities: set<Json> := {JStr("baja"), JStr("media"), JStr("alta")}

  /** The people kept: the strings of the list that occur in the text, in order. */
  function KeepPeople(items: seq<Json>, text: string): (r: seq<Json>)
    ensures |r| <= |items|
    ensures forall x :: x in r <==> x in items && x.JStr? && Contains(text, x.s)
  {
    if items == [] then []
    else
      var x := items[0];
      (if x.JStr? && Contains(text, x.s) then [x] else []) + KeepPeople(items[1..], text)
  }

  /** An emotion is kept, lower-cased, when it is whitelisted and the lower-cased text mentions it. */
  predicate EmotionSupported(x: Json, text: string) {
    x.JStr? && Lower(x.s) in EmotionsWhitelist && Contains(Lower(text), Lower(x.s))
  }

  function KeepEmotions(items: seq<Json>, text: string): (r: seq<Json>)
    ensures |r| <= |items|
    ensures forall k :: 0 <= k < |r| ==>
      r[k].JStr? && r[k].s in EmotionsWhitelist && Contains(Lower(text), r[k].s)
    ensures forall x :: x in items && EmotionSupported(x, text) ==> JStr(Lower(x.s)) in r
  {
    if items == [] then []
    else
      var x := items[0];
      (if EmotionSupported(x, text) then [JStr(Lower(x.s))] else []) + KeepEmotions(items[1..], text)
  }

  /** Every kept emotion is the lower-cased spelling of one the model gave. */
  lemma {:induction false} KeptEmotionsComeFromInput(items: seq<Json>, text: string, k: nat)
    requires k < |KeepEmotions(items, text)|
    ensures exists x :: x in items && x.JStr? && KeepEmotions(items, text)[k] == JStr(Lower(x.s))
  {
    var x := items[0];
    var head := if EmotionSupported(x, text) then [JStr(Lower(x.s))] else [];
    if k < |head| {
      assert KeepEmotions(items, text)[k] == JStr(Lower(x.s));
    } else {
      assert KeepEmotions(items, text)[k] == KeepEmotions(items[1..], text)[k - |head|];
      KeptEmotionsComeFromInput(items[1..], text, k - |head|);
      var y :| y in items[1..] && y.JStr? && KeepEmotions(items[1..], text)[k - |head|] == JStr(Lower(y.s));
      assert y in items;
    }
  }

  /** One list-valued key of the metadata: absent, iterable, or an error. */
  function ListOf(m: Obj, key: string): Result<seq<Json>, SanitizeError> {
    if key !in m then Ok([])
    else match Iterate(m[key])
      case None => Err(BadMetadata)
      case Some(xs) => Ok(xs)
  }

  /** The cleaned metadata: only non-empty lists are kept, and the intensity only when valid. */
  function Assemble(kept: seq<Json>, felt: seq<Json>, intensity: Json): (r: Obj)
    ensures r.Keys <= {"people", "emotions", "intensity"}
    ensures ("people" in r <==> kept != []) && (kept != [] ==> r["people"] == JArr(kept))
    ensures ("emotions" in r <==> felt != []) && (felt != [] ==> r["emotions"] == JArr(felt))
    ensures ("intensity" in r <==> intensity in Intensities) && (intensity in Intensities ==> r["intensity"] == intensity)
  {
    var people: Obj := if kept == [] then map[] else map["people" := JArr(kept)];
    var emotions: Obj := if felt == [] then map[] else map["emotions" := JArr(felt)];
    var valid: Obj := if intensity in Intensities then map["intensity" := intensity] else map[];
    people + emotions + valid
  }

  /**
   * The cleaned metadata. A falsy value counts as `{}`; any other non-dict
   * value raises in Python (`in` on a number, indexing or `.get` on a string
   * or list). An unhashable intensity raises in the set-membership test.
   */
  function SafeMetadata(meta: Json, text: string): (r: Result<Obj, SanitizeError>)
    ensures r.Ok? ==> r.value.Keys <= {"people", "emotions", "intensity"}
    ensures r.Ok? && "intensity" in r.value ==>
      r.value["intensity"] in Intensities && meta.JObj? && "intensity" in meta.fields
      && r.value["intensity"] == meta.fields["intensity"]
    ensures r.Ok? && "people" in r.value ==> r.value["people"].JArr? && r.value["people"].items != []
    ensures r.Ok? && "emotions" in r.value ==> r.value["emotions"].JArr? && r.value["emotions"].items != []
    ensures !Truthy(meta) ==> r == Ok(map[])
    ensures Truthy(meta) && !meta.JObj? ==> r.Err?
  {
    if !Truthy(meta) then Ok(map[])
    else if !meta.JObj? then Err(BadMetadata)
    else CleanFields(meta.fields, text)
  }

  function CleanFields(m: Obj, text: string): (r: Result<Obj, SanitizeError>)
  {
    var people :- ListOf(m, "people");
    var emotions :- ListOf(m, "emotions");
    var intensity := Get(m, "intensity", JNull);
    if !Hashable(intensity) then Err(BadMetadata)
    else Ok(Assemble(KeepPeople(people, text), KeepEmotions(emotions, text), intensity))
  }

  /** `sanitizar_chunk(chunk, texto_chunk)`: a copy of the chunk whose `metadata` is replaced by the cleaned one. */
  function SanitizeChunk(chunk: Obj, text: string): (r: Result<Obj, SanitizeError>)
    ensures r.Ok? ==> r.value.Keys == chunk.Keys + {"metadata"}
    ensures r.Ok? ==> forall k :: k in chunk && k != "metadata" ==> r.value[k] == chunk[k]
    ensures r.Ok? ==> r.value["metadata"].JObj? && SafeMetadata(Get(chunk, "metadata", JNull), text) == Ok(r.value["metadata"].fields)
    ensures r.Err? <==> SafeMetadata(Get(chunk, "metadata", JNull), text).Err?
  {
    var safe :- SafeMetadata(Get(chunk, "metadata", JNull), text);
    Ok(chunk["metadata" := JObj(safe)])
  }

  /** Only people named in the chunk's text survive. */
  lemma PeopleAreInText(chunk: Obj, text: string)
    requires SanitizeChunk(chunk, text).Ok?
    ensures var meta := SanitizeChunk(chunk, text).value["metadata"].fields;
      "people" in meta ==> forall x :: x in meta["people"].items ==> x.JStr? && Contains(text, x.s)
  {
  }

  lemma {:induction false} KeepPeopleIdempotent(items: seq<Json>, text: string)
    ensures KeepPeople(KeepPeople(items, text), text) == KeepPeople(items, text)
  {
    if items != [] {
      var x := items[0];
      var rest := KeepPeople(items[1..], text);
      KeepPeopleIdempotent(items[1..], text);
      if x.JStr? && Contains(text, x.s) {
        var all := KeepPeople(items, text);
        assert all == [x] + rest;
        assert all[0] == x && all[1..] == rest;
      } else {
        assert KeepPeople(items, text) == rest;
      }
    }
  }

  lemma {:induction false} KeepEmotionsIdempotent(items: seq<Json>, text: string)
    ensures KeepEmotions(KeepEmotions(items, text), text) == KeepEmotions(items, text)
  {
    if items != [] {
      var x := items[0];
      var rest := KeepEmotions(items[1..], text);
      KeepEmotionsIdempotent(items[1..], text);
      if EmotionSupported(x, text) {
        var y := JStr(Lower(x.s));
        LowerIdempotent(x.s);
        assert EmotionSupported(y, text);
        var all := KeepEmotions(items, text);
        assert all == [y] + rest;
        assert all[0] == y && all[1..] == rest;
        assert KeepEmotions(all, text) == [JStr(Lower(y.s))] + KeepEmotions(rest, text);
      } else {
        assert KeepEmotions(items, text) == rest;
      }
    }
  }

  /** Reading back the cleaned metadata finds exactly what was assembled. */
  lemma AssembledFields(kept: seq<Json>, felt: seq<Json>, intensity: Json)
    ensures var a := Assemble(kept, felt, intensity);
      ListOf(a, "people") == Ok(kept) && ListOf(a, "emotions") == Ok(felt)
      && Get(a, "intensity", JNull) == (if intensity in Intensities then intensity else JNull)
  {
  }

  /** Cleaning the fields of metadata that is already clean gives it back. */
  lemma CleanFieldsOfAssembled(kept: seq<Json>, felt: seq<Json>, intensity: Json, text: string)
    requires KeepPeople(kept, text) == kept && KeepEmotions(felt, text) == felt
    ensures CleanFields(Assemble(kept, felt, intensity), text) == Ok(Assemble(kept, felt, intensity))
  {
    AssembledFields(kept, felt, intensity);
    if intensity !in Intensities {
      assert Assemble(kept, felt, JNull) == Assemble(kept, felt, intensity);
    }
  }

  /** Cleaning metadata that is already clean changes nothing. */
  lemma SafeMetadataIdempotent(meta: Json, text: string)
    requires SafeMetadata(meta, text).Ok?
    ensures SafeMetadata(JObj(SafeMetadata(meta, text).value), text) == SafeMetadata(meta, text)
  {
    var safe := SafeMetadata(meta, text).value;
    if safe != map[] {
      var m := meta.fields;
      var people := ListOf(m, "people").value;
      var emotions := ListOf(m, "emotions").value;
      var intensity := Get(m, "intensity", JNull);
      var kept := KeepPeople(people, text);
      var felt := KeepEmotions(emotions, text);
      assert safe == Assemble(kept, felt, intensity);
      KeepPeopleIdempotent(people, text);
      KeepEmotionsIdempotent(emotions, text);
      CleanFieldsOfAssembled(kept, felt, intensity, text);
    }
  }

  /** Sanitizing twice is sanitizing once. */
  lemma SanitizeIdempotent(chunk: Obj, text: string)
    requires SanitizeChunk(chunk, text).Ok?
    ensures SanitizeChunk(SanitizeChunk(chunk, text).value, text) == SanitizeChunk(chunk, text)
  {
    var once := SanitizeChunk(chunk, text).value;
    SafeMetadataIdempotent(Get(chunk, "metadata", JNull), text);
    assert Get(once, "metadata", JNull) == JObj(SafeMetadata(Get(chunk, "metadata", JNull), text).value);
    assert once["metadata" := once["metadata"]] == once;
  }
}
