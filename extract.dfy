/**
 * Locating the JSON text inside a language model's free-form reply
 * (`extraer_json_de_respuesta`). Two versions exist: one with a fenced-block
 * strategy and a brace-span strategy, and one that adds a third,
 * whole-text strategy; the third never changes the outcome.
 */
module Extract {
  import opened Wrappers
  import opened Text

  datatype ExtractError = NoJsonBlock

  const Fence: string := "```"

  /**
   * Strategy 1, `re.search(r'(?s)```(?:json)?\s*(.*?)\s*```', s)` followed by
   * `group(1).strip()`: from the first fence (past an optional `json` tag) to
   * the next fence, stripped. None when there is no closing fence.
   */
  function FencedBlock(s: string): (r: Option<string>)
    ensures r.Some? ==> Stripped(r.value)
  {
    match IndexOf(s, Fence, 0)
    case None => None
    case Some(p) =>
      var c := if "json" <= s[p + 3..] then p + 7 else p + 3;
      match IndexOf(s, Fence, c)
      case None => None
      case Some(q) => Some(Strip(s[c..q]))
  }

  /**
   * Strategy 2, `re.search(r'(?s)\{.*\}', s).group(0)`: the span from the
   * first `{` to the last `}`, provided that `}` comes after the `{`.
   */
  function BraceSpan(s: string): (r: Option<string>)
    ensures r.Some? ==> |r.value| >= 2 && r.value[0] == '{' && r.value[|r.value| - 1] == '}'
  {
    var first, last := FirstIndexOfChar(s, '{'), LastIndexOfChar(s, '}');
    if first.Some? && last.Some? && first.value < last.value then
      Some(s[first.value..last.value + 1])
    else
      None
  }

  /** A `{` before a `}` anywhere in `s` means the brace span is found. */
  lemma BracePairFound(s: string, i: int, j: int)
    requires 0 <= i < j < |s| && s[i] == '{' && s[j] == '}'
    ensures BraceSpan(s).Some?
  {
    assert s[i] in s && s[j] in s;
    var first, last := FirstIndexOfChar(s, '{'), LastIndexOfChar(s, '}');
    assert first.value <= i;
    assert j <= last.value;
  }

  /** Text without a backtick contains no fence. */
  lemma NoBacktickNoFence(s: string)
    requires '`' !in s
    ensures FencedBlock(s).None?
  {
    forall j | 0 <= j <= |s| ensures !(Fence <= s[j..]) {
      if j < |s| {
        assert s[j] in s;
      }
    }
  }

  /** `extraer_json_de_respuesta` with the fenced-block and brace-span strategies. */
  function ExtractJson(s: string): (r: Result<string, ExtractError>)
    ensures r.Err? <==> FencedBlock(s).None? && BraceSpan(s).None?
  {
    var fenced := FencedBlock(s);
    if fenced.Some? then Ok(fenced.value)
    else
      var braces := BraceSpan(s);
      if braces.Some? then Ok(Strip(braces.value)) else Err(NoJsonBlock)
  }

  /** Strategy 3: the whole stripped reply when it starts with `{` and ends with `}`. */
  function WholeText(s: string): Option<string> {
    var t := Strip(s);
    if |t| >= 1 && t[0] == '{' && t[|t| - 1] == '}' then Some(t) else None
  }

  /** The three-strategy version. */
  function ExtractJsonWithWhole(s: string): Result<string, ExtractError> {
    var fenced := FencedBlock(s);
    if fenced.Some? then Ok(fenced.value)
    else
      var braces := BraceSpan(s);
      if braces.Some? then Ok(Strip(braces.value))
      else
        var whole := WholeText(s);
        if whole.Some? then Ok(whole.value) else Err(NoJsonBlock)
  }

  /** Whenever the whole-text strategy would succeed, the brace span already exists. */
  lemma WholeTextImpliesBraceSpan(s: string)
    ensures WholeText(s).Some? ==> BraceSpan(s).Some?
  {
    var t := Strip(s);
    if |t| >= 1 && t[0] == '{' && t[|t| - 1] == '}' {
      var k := StripSlice(s);
      SliceEnds(s, t, k);
      BracePairFound(s, k, k + |t| - 1);
    }
  }

  lemma SliceEnds(s: string, t: string, k: nat)
    requires 2 <= |t| && k + |t| <= |s| && t == s[k..k + |t|]
    ensures s[k] == t[0] && s[k + |t| - 1] == t[|t| - 1]
  {
  }

  /** The third strategy is unreachable: both versions agree on every reply. */
  lemma ThirdStrategyUnreachable(s: string)
    ensures ExtractJsonWithWhole(s) == ExtractJson(s)
  {
    WholeTextImpliesBraceSpan(s);
  }

  lemma FencedBlockOfReply(p: string)
    requires Stripped(p) && '`' !in p
    ensures FencedBlock("```json\n" + p + "\n```") == Some(p)
  {
    OpeningFenceOfReply(p);
    ClosingFenceOfReply(p);
    ContentOfReply(p);
  }

  lemma OpeningFenceOfReply(p: string)
    ensures IndexOf("```json\n" + p + "\n```", Fence, 0) == Some(0)
    ensures "json" <= ("```json\n" + p + "\n```")[3..]
  {
    var s := "```json\n" + p + "\n```";
    IndexOfIs(s, Fence, 0, 0);
    assert s[3..7] == "json";
  }

  lemma ContentOfReply(p: string)
    requires Stripped(p)
    ensures Strip(("```json\n" + p + "\n```")[7..9 + |p|]) == p
  {
    var s := "```json\n" + p + "\n```";
    assert s[7..9 + |p|] == "\n" + p + "\n";
    StripNewlines(p);
  }

  lemma ClosingFenceOfReply(p: string)
    requires '`' !in p
    ensures IndexOf("```json\n" + p + "\n```", Fence, 7) == Some(9 + |p|)
  {
    var s := "```json\n" + p + "\n```";
    assert s[9 + |p|..] == Fence;
    assert s[8..8 + |p|] == p;
    forall j | 7 <= j < 9 + |p| ensures s[j] != '`' {
      if 8 <= j < 8 + |p| {
        assert s[j] == s[8..8 + |p|][j - 8];
      }
    }
    forall j | 7 <= j < 9 + |p| ensures !(Fence <= s[j..]) {
      assert s[j..][0] == s[j];
    }
    IndexOfIs(s, Fence, 7, 9 + |p|);
  }

  lemma StripNewlines(p: string)
    requires Stripped(p)
    ensures Strip("\n" + p + "\n") == p
  {
    StripPadded("\n", p, "\n");
  }

  /** A reply that is exactly one `json`-tagged fenced block yields the block's content. */
  lemma FencedReplyRoundTrip(p: string)
    requires Stripped(p) && '`' !in p
    ensures ExtractJson("```json\n" + p + "\n```") == Ok(p)
  {
    FencedBlockOfReply(p);
  }

  lemma BraceSpanAround(a: string, obj: string, b: string)
    requires '{' !in a && '}' !in b
    requires |obj| >= 2 && obj[0] == '{' && obj[|obj| - 1] == '}'
    ensures BraceSpan(a + obj + b) == Some(obj)
  {
    var s := a + obj + b;
    assert s[..|a|] == a;
    FirstIndexIs(s, '{', |a|);
    assert s[|a| + |obj|..] == b;
    LastIndexIs(s, '}', |a| + |obj| - 1);
    assert s[|a|..|a| + |obj|] == obj;
  }

  /** Prose around a single object, with no fence and no braces in the prose, yields the object. */
  lemma ObjectInProse(a: string, obj: string, b: string)
    requires '`' !in a && '`' !in obj && '`' !in b
    requires '{' !in a && '}' !in b
    requires |obj| >= 2 && obj[0] == '{' && obj[|obj| - 1] == '}'
    ensures ExtractJson(a + obj + b) == Ok(obj)
  {
    NoBacktickNoFence(a + obj + b);
    BraceSpanAround(a, obj, b);
    StripStripped(obj);
  }
}
