/**
 * The deterministic chunker (`dividir_en_chunks_semanticos`): the text is cut
 * into paragraphs at blank lines and before Markdown headers, and the
 * paragraphs are packed greedily into chunks of roughly `min..max` words.
 * Also the keyword classifier of a chunk's type (`clasificar_tipo_chunk`).
 */
module ParagraphChunker {
  import opened Wrappers
  import opened Text

  // ---------------------------------------------------------------- paragraphs

  /** Length of the run of `#` characters starting at `i`. */
  function HashRun(s: string, i: nat): (n: nat)
    requires i <= |s|
    ensures i + n <= |s|
    ensures forall k :: i <= k < i + n ==> s[k] == '#'
    ensures i + n < |s| ==> s[i + n] != '#'
    decreases |s| - i
  {
    if i < |s| && s[i] == '#' then 1 + HashRun(s, i + 1) else 0
  }

  /**
   * The lookahead `(?=^#{1,6}\s)` in MULTILINE mode holds at `i`: a line
   * starts there with one to six `#` followed by whitespace.
   */
  predicate HeaderAt(s: string, i: nat)
    requires i <= |s|
  {
    (i == 0 || s[i - 1] == '\n')
    && var n := HashRun(s, i);
    1 <= n <= 6 && i + n < |s| && IsSpace(s[i + n])
  }

  /** Length of the run of whitespace starting at `i`. */
  function SpaceRun(s: string, i: nat): (n: nat)
    requires i <= |s|
    ensures i + n <= |s|
    ensures forall k :: i <= k < i + n ==> IsSpace(s[k])
    decreases |s| - i
  {
    if i < |s| && IsSpace(s[i]) then 1 + SpaceRun(s, i + 1) else 0
  }

  /**
   * Where the separator `\n\s*\n` that starts at `i` ends: the greedy `\s*`
   * runs to the end of the whitespace and backs off to its last newline.
   */
  function BlankGapEnd(s: string, i: nat): (r: Option<nat>)
    requires i < |s|
    ensures r.Some? ==> i + 2 <= r.value <= |s|
    ensures r.Some? ==> AllSpace(s[i..r.value])
  {
    if s[i] != '\n' then None
    else
      var j := i + 1 + SpaceRun(s, i + 1);
      match LastIndexOfChar(s[i + 1..j], '\n')
      case None => None
      case Some(t) =>
        assert forall k :: i <= k < i + 1 + t + 1 ==> IsSpace(s[k]);
        Some(i + 1 + t + 1)
  }

  /**
   * `re.split(r'\n\s*\n|(?=^#{1,6}\s)', s, flags=re.MULTILINE)` from scan
   * position `i`, the current piece having started at `start`. A blank-line
   * separator is consumed; a header position cuts without consuming.
   */
  function Pieces(s: string, start: nat, i: nat): seq<string>
    requires start <= i <= |s|
    decreases |s| - i
  {
    if i == |s| then [s[start..]]
    else
      var gap := BlankGapEnd(s, i);
      if gap.Some? then [s[start..i]] + Pieces(s, gap.value, gap.value)
      else if HeaderAt(s, i) then [s[start..i]] + Pieces(s, i, i + 1)
      else Pieces(s, start, i + 1)
  }

  /** Strip every piece and drop the blank ones. */
  function StrippedNonBlank(pieces: seq<string>): (r: seq<string>)
    ensures forall k :: 0 <= k < |r| ==> r[k] != [] && Stripped(r[k])
  {
    if pieces == [] then []
    else
      var p := Strip(pieces[0]);
      (if p == [] then [] else [p]) + StrippedNonBlank(pieces[1..])
  }

  /** The paragraphs of a text, in order. */
  function Paragraphs(s: string): (r: seq<string>)
    ensures forall k :: 0 <= k < |r| ==> r[k] != [] && Stripped(r[k])
  {
    StrippedNonBlank(Pieces(s, 0, 0))
  }

  /** The pieces of a text, one after the other. */
  function Concat(xs: seq<string>): string {
    if xs == [] then [] else xs[0] + Concat(xs[1..])
  }

  lemma ConcatCons(x: string, xs: seq<string>)
    ensures Concat([x] + xs) == x + Concat(xs)
  {
    assert ([x] + xs)[0] == x && ([x] + xs)[1..] == xs;
  }

  /** The split drops only whitespace: the separators it consumes are blank. */
  lemma {:induction false} PiecesCover(s: string, start: nat, i: nat)
    requires start <= i <= |s|
    ensures NonSpace(Concat(Pieces(s, start, i))) == NonSpace(s[start..])
    decreases |s| - i
  {
    if i == |s| {
      assert Pieces(s, start, i) == [s[start..]] + [];
      ConcatCons(s[start..], []);
      assert s[start..] + [] == s[start..];
    } else {
      var gap := BlankGapEnd(s, i);
      if gap.Some? {
        var g := gap.value;
        assert Pieces(s, start, i) == [s[start..i]] + Pieces(s, g, g);
        PiecesCover(s, g, g);
        CoverCons(s[start..i], Pieces(s, g, g), s[g..]);
        CoverAcrossGap(s, start, i, g);
      } else if HeaderAt(s, i) {
        assert Pieces(s, start, i) == [s[start..i]] + Pieces(s, i, i + 1);
        PiecesCover(s, i, i + 1);
        CoverCons(s[start..i], Pieces(s, i, i + 1), s[i..]);
        CoverAcrossGap(s, start, i, i);
      } else {
        assert Pieces(s, start, i) == Pieces(s, start, i + 1);
        PiecesCover(s, start, i + 1);
      }
    }
  }

  lemma CoverCons(x: string, ps: seq<string>, rest: string)
    requires NonSpace(Concat(ps)) == NonSpace(rest)
    ensures NonSpace(Concat([x] + ps)) == NonSpace(x) + NonSpace(rest)
  {
    ConcatCons(x, ps);
    NonSpaceAppend(x, Concat(ps));
  }

  /** Cutting `s[start..]` at `i` and dropping the blank `s[i..g]` keeps every other character. */
  lemma CoverAcrossGap(s: string, start: nat, i: nat, g: nat)
    requires start <= i <= g <= |s| && AllSpace(s[i..g])
    ensures NonSpace(s[start..]) == NonSpace(s[start..i]) + NonSpace(s[g..])
  {
    assert s[start..] == s[start..i] + (s[i..g] + s[g..]);
    NonSpaceAppend(s[i..g], s[g..]);
    NonSpaceAppend(s[start..i], s[i..g] + s[g..]);
    NonSpaceAllSpace(s[i..g]);
  }

  /** Stripping the pieces and dropping the blank ones drops only whitespace. */
  lemma {:induction false} StrippedNonBlankCover(pieces: seq<string>)
    ensures NonSpace(Concat(StrippedNonBlank(pieces))) == NonSpace(Concat(pieces))
  {
    if pieces != [] {
      var p := Strip(pieces[0]);
      var rest := StrippedNonBlank(pieces[1..]);
      StrippedNonBlankCover(pieces[1..]);
      NonSpaceStrip(pieces[0]);
      NonSpaceAppend(pieces[0], Concat(pieces[1..]));
      if p == [] {
        assert StrippedNonBlank(pieces) == rest;
      } else {
        assert StrippedNonBlank(pieces) == [p] + rest;
        ConcatCons(p, rest);
        NonSpaceAppend(p, Concat(rest));
      }
    }
  }

  /**
   * The paragraphs hold all of the text but its whitespace: with whitespace
   * removed, the paragraphs one after the other are the text.
   */
  lemma ParagraphsCoverText(s: string)
    ensures NonSpace(Concat(Paragraphs(s))) == NonSpace(s)
  {
    PiecesCover(s, 0, 0);
    StrippedNonBlankCover(Pieces(s, 0, 0));
    assert s[0..] == s;
  }

  /** A text with no separator and no header is one paragraph: itself, stripped. */
  lemma {:induction false} PlainTextIsOneParagraph(s: string, start: nat, i: nat)
    requires start <= i <= |s|
    requires forall k :: i <= k < |s| ==> s[k] != '\n' && s[k] != '#'
    ensures Pieces(s, start, i) == [s[start..]]
    decreases |s| - i
  {
    if i < |s| {
      PlainTextIsOneParagraph(s, start, i + 1);
    }
  }

  // ---------------------------------------------------------------- greedy packing

  function WordCount(p: string): nat {
    |Words(p)|
  }

  function WordSum(g: seq<string>): nat {
    if g == [] then 0 else WordSum(g[..|g| - 1]) + WordCount(g[|g| - 1])
  }

  function Flatten(groups: seq<seq<string>>): seq<string> {
    if groups == [] then [] else groups[0] + Flatten(groups[1..])
  }

  /**
   * The packing the loop performs, from the remaining paragraphs `rest` with
   * the chunk `cur` (of `words` words) still open: a paragraph closes the open
   * chunk exactly when the chunk is non-empty, already holds `minWords`, and
   * would pass `maxWords` with the paragraph added.
   */
  function PackFrom(rest: seq<string>, cur: seq<string>, words: int, minWords: int, maxWords: int): seq<seq<string>>
    decreases |rest|
  {
    if rest == [] then (if cur == [] then [] else [cur])
    else
      var w := WordCount(rest[0]);
      if words + w > maxWords && cur != [] && words >= minWords then
        [cur] + PackFrom(rest[1..], [rest[0]], w, minWords, maxWords)
      else
        PackFrom(rest[1..], cur + [rest[0]], words + w, minWords, maxWords)
  }

  function Pack(paras: seq<string>, minWords: int, maxWords: int): seq<seq<string>> {
    PackFrom(paras, [], 0, minWords, maxWords)
  }

  function JoinEach(groups: seq<seq<string>>): (r: seq<string>)
    ensures |r| == |groups|
    ensures forall k :: 0 <= k < |groups| ==> r[k] == Join("\n\n", groups[k])
  {
    if groups == [] then [] else [Join("\n\n", groups[0])] + JoinEach(groups[1..])
  }

  lemma FlattenAppend(a: seq<seq<string>>, b: seq<seq<string>>)
    ensures Flatten(a + b) == Flatten(a) + Flatten(b)
  {
    if a != [] {
      assert (a + b)[1..] == a[1..] + b;
      FlattenAppend(a[1..], b);
    } else {
      assert a + b == b;
    }
  }

  /** Every paragraph lands in exactly one chunk, in order: concatenating the chunks gives the paragraphs back. */
  lemma {:induction false} PackCovers(rest: seq<string>, cur: seq<string>, words: int, minWords: int, maxWords: int)
    ensures Flatten(PackFrom(rest, cur, words, minWords, maxWords)) == cur + rest
    decreases |rest|
  {
    if rest == [] {
      assert cur + rest == cur;
    } else {
      var w := WordCount(rest[0]);
      assert cur + rest == cur + [rest[0]] + rest[1..];
      if words + w > maxWords && cur != [] && words >= minWords {
        PackCovers(rest[1..], [rest[0]], w, minWords, maxWords);
        assert [rest[0]] + rest[1..] == rest;
      } else {
        PackCovers(rest[1..], cur + [rest[0]], words + w, minWords, maxWords);
      }
    }
  }

  /** No chunk is empty. */
  lemma {:induction false} PackGroupsNonEmpty(rest: seq<string>, cur: seq<string>, words: int, minWords: int, maxWords: int)
    ensures forall k :: 0 <= k < |PackFrom(rest, cur, words, minWords, maxWords)| ==>
      PackFrom(rest, cur, words, minWords, maxWords)[k] != []
    ensures cur + rest != [] ==> PackFrom(rest, cur, words, minWords, maxWords) != []
    decreases |rest|
  {
    if rest != [] {
      var w := WordCount(rest[0]);
      if words + w > maxWords && cur != [] && words >= minWords {
        PackGroupsNonEmpty(rest[1..], [rest[0]], w, minWords, maxWords);
      } else {
        PackGroupsNonEmpty(rest[1..], cur + [rest[0]], words + w, minWords, maxWords);
      }
    }
  }

  /**
   * The chunk at `k` was closed by the paragraph that opens the next one:
   * it already held `minWords` words and that paragraph would have taken it
   * past `maxWords`.
   */
  predicate ClosedAt(g: seq<seq<string>>, k: nat, minWords: int, maxWords: int)
    requires k + 1 < |g|
  {
    g[k + 1] != [] && WordSum(g[k]) >= minWords && WordSum(g[k]) + WordCount(g[k + 1][0]) > maxWords
  }

  /** Every boundary between two chunks is one the greedy rule forces. */
  predicate ClosesOnlyWhenFull(g: seq<seq<string>>, minWords: int, maxWords: int) {
    forall k: nat :: k + 1 < |g| ==> ClosedAt(g, k, minWords, maxWords)
  }

  lemma ClosesOnlyWhenFullCons(c: seq<string>, tail: seq<seq<string>>, minWords: int, maxWords: int)
    requires ClosesOnlyWhenFull(tail, minWords, maxWords)
    requires tail != [] ==> tail[0] != [] && WordSum(c) >= minWords && WordSum(c) + WordCount(tail[0][0]) > maxWords
    ensures ClosesOnlyWhenFull([c] + tail, minWords, maxWords)
  {
    var g := [c] + tail;
    forall k: nat | k + 1 < |g| ensures ClosedAt(g, k, minWords, maxWords) {
      if k > 0 {
        assert ClosedAt(tail, k - 1, minWords, maxWords);
        assert g[k] == tail[k - 1] && g[k + 1] == tail[k];
      }
    }
  }

  /**
   * A chunk is closed only once it holds at least `minWords` words and the
   * next paragraph would take it past `maxWords`.
   */
  lemma {:induction false} PackClosesOnlyWhenFull(rest: seq<string>, cur: seq<string>, words: int, minWords: int, maxWords: int)
    requires words == WordSum(cur)
    ensures ClosesOnlyWhenFull(PackFrom(rest, cur, words, minWords, maxWords), minWords, maxWords)
    decreases |rest|
  {
    if rest == [] {
    } else {
      var w := WordCount(rest[0]);
      if words + w > maxWords && cur != [] && words >= minWords {
        assert [rest[0]][..0] == [];
        PackClosesOnlyWhenFull(rest[1..], [rest[0]], w, minWords, maxWords);
        PackFirstGroupStarts(rest[1..], [rest[0]], w, minWords, maxWords);
        ClosesOnlyWhenFullCons(cur, PackFrom(rest[1..], [rest[0]], w, minWords, maxWords), minWords, maxWords);
      } else {
        assert (cur + [rest[0]])[..|cur|] == cur;
        PackClosesOnlyWhenFull(rest[1..], cur + [rest[0]], words + w, minWords, maxWords);
      }
    }
  }

  /** The first chunk produced starts with the open chunk's first paragraph. */
  lemma {:induction false} PackFirstGroupStarts(rest: seq<string>, cur: seq<string>, words: int, minWords: int, maxWords: int)
    requires cur != []
    ensures var g := PackFrom(rest, cur, words, minWords, maxWords);
      g != [] && g[0] != [] && g[0][0] == cur[0]
    decreases |rest|
  {
    if rest != [] {
      var w := WordCount(rest[0]);
      if !(words + w > maxWords && cur != [] && words >= minWords) {
        PackFirstGroupStarts(rest[1..], cur + [rest[0]], words + w, minWords, maxWords);
      }
    }
  }

  /**
   * Inside a chunk, every paragraph after the first was added either because
   * it still fit under `maxWords` or because the chunk was below `minWords`.
   */
  predicate GrowsLegally(g: seq<string>, minWords: int, maxWords: int) {
    forall k :: 1 <= k < |g| ==> JoinedAt(g, k, minWords, maxWords)
  }

  /** Paragraph `k` joined a chunk that it kept within `maxWords` or that was still below `minWords`. */
  predicate JoinedAt(g: seq<string>, k: nat, minWords: int, maxWords: int)
    requires 1 <= k < |g|
  {
    WordSum(g[..k]) + WordCount(g[k]) <= maxWords || WordSum(g[..k]) < minWords
  }

  predicate AllGrowLegally(g: seq<seq<string>>, minWords: int, maxWords: int) {
    forall k :: 0 <= k < |g| ==> GrowsLegally(g[k], minWords, maxWords)
  }

  lemma AllGrowLegallyCons(c: seq<string>, tail: seq<seq<string>>, minWords: int, maxWords: int)
    requires GrowsLegally(c, minWords, maxWords) && AllGrowLegally(tail, minWords, maxWords)
    ensures AllGrowLegally([c] + tail, minWords, maxWords)
  {
    var g := [c] + tail;
    forall k | 0 <= k < |g| ensures GrowsLegally(g[k], minWords, maxWords) {
      if k > 0 {
        assert g[k] == tail[k - 1];
      }
    }
  }

  lemma GrowsLegallyAppend(cur: seq<string>, p: string, minWords: int, maxWords: int)
    requires GrowsLegally(cur, minWords, maxWords)
    requires cur == [] || WordSum(cur) + WordCount(p) <= maxWords || WordSum(cur) < minWords
    ensures GrowsLegally(cur + [p], minWords, maxWords)
  {
    var next := cur + [p];
    forall k | 1 <= k < |next|
      ensures JoinedAt(next, k, minWords, maxWords)
    {
      if k < |cur| {
        assert next[..k] == cur[..k] && next[k] == cur[k];
        assert JoinedAt(cur, k, minWords, maxWords);
      } else {
        assert next[..k] == cur && next[k] == p;
      }
    }
  }

  lemma {:induction false} PackGrowsLegally(rest: seq<string>, cur: seq<string>, words: int, minWords: int, maxWords: int)
    requires words == WordSum(cur) && GrowsLegally(cur, minWords, maxWords)
    ensures AllGrowLegally(PackFrom(rest, cur, words, minWords, maxWords), minWords, maxWords)
    decreases |rest|
  {
    if rest == [] {
      PackGrowsEnd(cur, words, minWords, maxWords);
    } else {
      var w := WordCount(rest[0]);
      if words + w > maxWords && cur != [] && words >= minWords {
        SingleGrowsLegally(rest[0], minWords, maxWords);
        PackGrowsLegally(rest[1..], [rest[0]], w, minWords, maxWords);
        PackGrowsClose(rest, cur, words, minWords, maxWords);
      } else {
        GrowsLegallyAppend(cur, rest[0], minWords, maxWords);
        WordSumSnoc(cur, rest[0]);
        PackGrowsLegally(rest[1..], cur + [rest[0]], words + w, minWords, maxWords);
        PackGrowsGrow(rest, cur, words, minWords, maxWords);
      }
    }
  }

  lemma PackGrowsGrow(rest: seq<string>, cur: seq<string>, words: int, minWords: int, maxWords: int)
    requires rest != [] && !(cur != [] && words + WordCount(rest[0]) > maxWords && words >= minWords)
    requires AllGrowLegally(PackFrom(rest[1..], cur + [rest[0]], words + WordCount(rest[0]), minWords, maxWords), minWords, maxWords)
    ensures AllGrowLegally(PackFrom(rest, cur, words, minWords, maxWords), minWords, maxWords)
  {
  }

  lemma PackGrowsEnd(cur: seq<string>, words: int, minWords: int, maxWords: int)
    requires GrowsLegally(cur, minWords, maxWords)
    ensures AllGrowLegally(PackFrom([], cur, words, minWords, maxWords), minWords, maxWords)
  {
    if cur != [] {
      AllGrowLegallyCons(cur, [], minWords, maxWords);
      assert [cur] + [] == [cur];
    }
  }

  lemma PackGrowsClose(rest: seq<string>, cur: seq<string>, words: int, minWords: int, maxWords: int)
    requires rest != [] && cur != [] && words + WordCount(rest[0]) > maxWords && words >= minWords
    requires GrowsLegally(cur, minWords, maxWords)
    requires AllGrowLegally(PackFrom(rest[1..], [rest[0]], WordCount(rest[0]), minWords, maxWords), minWords, maxWords)
    ensures AllGrowLegally(PackFrom(rest, cur, words, minWords, maxWords), minWords, maxWords)
  {
    AllGrowLegallyCons(cur, PackFrom(rest[1..], [rest[0]], WordCount(rest[0]), minWords, maxWords), minWords, maxWords);
  }

  lemma SingleGrowsLegally(p: string, minWords: int, maxWords: int)
    ensures WordSum([p]) == WordCount(p) && GrowsLegally([p], minWords, maxWords)
  {
    assert [p][..0] == [];
  }

  lemma WordSumSnoc(g: seq<string>, p: string)
    ensures WordSum(g + [p]) == WordSum(g) + WordCount(p)
  {
    assert (g + [p])[..|g|] == g;
  }

  /** One step of the loop: the paragraph `paras[k]` closes the open chunk, which is emitted. */
  lemma PackCloseStep(chunks: seq<string>, paras: seq<string>, k: nat, cur: seq<string>, words: int, minWords: int, maxWords: int)
    requires k < |paras| && cur != [] && words + WordCount(paras[k]) > maxWords && words >= minWords
    ensures chunks + JoinEach(PackFrom(paras[k..], cur, words, minWords, maxWords))
         == (chunks + [Join("\n\n", cur)]) + JoinEach(PackFrom(paras[k + 1..], [paras[k]], WordCount(paras[k]), minWords, maxWords))
  {
    assert paras[k..][0] == paras[k] && paras[k..][1..] == paras[k + 1..];
    var rest := PackFrom(paras[k + 1..], [paras[k]], WordCount(paras[k]), minWords, maxWords);
    assert PackFrom(paras[k..], cur, words, minWords, maxWords) == [cur] + rest;
    JoinEachAppend([cur], rest);
    assert JoinEach([cur]) == [Join("\n\n", cur)];
  }

  /** One step of the loop: the paragraph `paras[k]` joins the open chunk. */
  lemma PackGrowStep(paras: seq<string>, k: nat, cur: seq<string>, words: int, minWords: int, maxWords: int)
    requires k < |paras| && !(cur != [] && words + WordCount(paras[k]) > maxWords && words >= minWords)
    ensures PackFrom(paras[k..], cur, words, minWords, maxWords)
         == PackFrom(paras[k + 1..], cur + [paras[k]], words + WordCount(paras[k]), minWords, maxWords)
  {
    assert paras[k..][0] == paras[k] && paras[k..][1..] == paras[k + 1..];
  }

  /** After the last paragraph, the open chunk, if any, is emitted. */
  lemma PackEndStep(chunks: seq<string>, cur: seq<string>, words: int, minWords: int, maxWords: int)
    ensures chunks + JoinEach(PackFrom([], cur, words, minWords, maxWords))
         == if cur == [] then chunks else chunks + [Join("\n\n", cur)]
  {
    if cur == [] {
      assert chunks + [] == chunks;
    } else {
      assert JoinEach([cur]) == [Join("\n\n", cur)];
    }
  }

  /** The packing loop of `dividir_en_chunks_semanticos` over the paragraph list. */
  method PackParagraphs(paras: seq<string>, minWords: int, maxWords: int) returns (chunks: seq<string>)
    ensures chunks == JoinEach(Pack(paras, minWords, maxWords))
  {
    chunks := [];
    var current: seq<string> := [];
    var words := 0;
    var k := 0;
    while k < |paras|
      invariant 0 <= k <= |paras|
      invariant chunks + JoinEach(PackFrom(paras[k..], current, words, minWords, maxWords))
             == JoinEach(Pack(paras, minWords, maxWords))
    {
      var p := paras[k];
      var w := WordCount(p);
      if words + w > maxWords && current != [] && words >= minWords {
        PackCloseStep(chunks, paras, k, current, words, minWords, maxWords);
        chunks := chunks + [Join("\n\n", current)];
        current := [p];
        words := w;
      } else {
        PackGrowStep(paras, k, current, words, minWords, maxWords);
        current := current + [p];
        words := words + w;
      }
      k := k + 1;
    }
    assert paras[k..] == [];
    PackEndStep(chunks, current, words, minWords, maxWords);
    if current != [] {
      chunks := chunks + [Join("\n\n", current)];
    }
  }

  /**
   * `dividir_en_chunks_semanticos(texto, min_palabras, max_palabras)`: the
   * paragraphs packed greedily, each chunk's paragraphs joined by a blank
   * line; the whole text as the only chunk when it has no paragraph.
   */
  method SplitIntoChunks(texto: string, minWords: int, maxWords: int) returns (chunks: seq<string>)
    ensures Paragraphs(texto) == [] ==> chunks == [texto]
    ensures Paragraphs(texto) != [] ==> chunks == JoinEach(Pack(Paragraphs(texto), minWords, maxWords))
  {
    var paras := Paragraphs(texto);
    chunks := PackParagraphs(paras, minWords, maxWords);
    if paras != [] {
      PackGroupsNonEmpty(paras, [], 0, minWords, maxWords);
    }
    if chunks == [] {
      chunks := [texto];
    }
  }

  lemma JoinEachAppend(a: seq<seq<string>>, b: seq<seq<string>>)
    ensures JoinEach(a + b) == JoinEach(a) + JoinEach(b)
  {
  }

  /** The chunker never returns an empty list. */
  lemma ChunksNeverEmpty(texto: string, minWords: int, maxWords: int)
    ensures Paragraphs(texto) != [] ==> |Pack(Paragraphs(texto), minWords, maxWords)| >= 1
  {
    PackGroupsNonEmpty(Paragraphs(texto), [], 0, minWords, maxWords);
  }

  /** The packing's chunks together hold every paragraph, once each and in order. */
  lemma ChunksCoverParagraphs(paras: seq<string>, minWords: int, maxWords: int)
    ensures Flatten(Pack(paras, minWords, maxWords)) == paras
  {
    PackCovers(paras, [], 0, minWords, maxWords);
    assert [] + paras == paras;
  }

  lemma {:induction false} ConcatAppend(a: seq<string>, b: seq<string>)
    ensures Concat(a + b) == Concat(a) + Concat(b)
  {
    if a == [] {
      assert a + b == b;
    } else {
      assert (a + b)[1..] == a[1..] + b;
      ConcatAppend(a[1..], b);
    }
  }

  /** A blank separator adds only whitespace to what it joins. */
  lemma {:induction false} NonSpaceJoin(sep: string, xs: seq<string>)
    requires AllSpace(sep)
    ensures NonSpace(Join(sep, xs)) == NonSpace(Concat(xs))
  {
    if |xs| == 1 {
      assert Concat(xs) == xs[0] + Concat([]);
      assert xs[0] + [] == xs[0];
    } else if |xs| > 1 {
      NonSpaceJoin(sep, xs[1..]);
      NonSpaceAppend(xs[0] + sep, Join(sep, xs[1..]));
      NonSpaceAppend(xs[0], sep);
      NonSpaceAllSpace(sep);
      NonSpaceAppend(xs[0], Concat(xs[1..]));
    }
  }

  lemma {:induction false} NonSpaceJoinEach(groups: seq<seq<string>>)
    ensures NonSpace(Concat(JoinEach(groups))) == NonSpace(Concat(Flatten(groups)))
  {
    if groups != [] {
      var j := Join("\n\n", groups[0]);
      var rest := JoinEach(groups[1..]);
      NonSpaceJoinEach(groups[1..]);
      assert JoinEach(groups) == [j] + rest;
      ConcatCons(j, rest);
      NonSpaceAppend(j, Concat(rest));
      NonSpaceJoin("\n\n", groups[0]);
      ConcatAppend(groups[0], Flatten(groups[1..]));
      NonSpaceAppend(Concat(groups[0]), Concat(Flatten(groups[1..])));
    }
  }

  /**
   * The chunks hold all of the text but whitespace: with whitespace removed,
   * the chunks one after the other are the text.
   */
  lemma ChunksCoverText(texto: string, minWords: int, maxWords: int)
    ensures var paras := Paragraphs(texto);
      var chunks := if paras == [] then [texto] else JoinEach(Pack(paras, minWords, maxWords));
      NonSpace(Concat(chunks)) == NonSpace(texto)
  {
    var paras := Paragraphs(texto);
    if paras == [] {
      ConcatCons(texto, []);
      assert [texto] == [texto] + [];
      assert texto + [] == texto;
    } else {
      ParagraphsCoverText(texto);
      ChunksCoverParagraphs(paras, minWords, maxWords);
      NonSpaceJoinEach(Pack(paras, minWords, maxWords));
    }
  }

  /** Every chunk but the last holds at least `minWords` words. */
  lemma ChunksReachMinimum(paras: seq<string>, minWords: int, maxWords: int)
    ensures var g := Pack(paras, minWords, maxWords);
      forall k :: 0 <= k < |g| - 1 ==> WordSum(g[k]) >= minWords
  {
    var g := Pack(paras, minWords, maxWords);
    PackClosesOnlyWhenFull(paras, [], 0, minWords, maxWords);
    forall k | 0 <= k < |g| - 1 ensures WordSum(g[k]) >= minWords {
      assert ClosedAt(g, k, minWords, maxWords);
    }
  }

  /** Inside every chunk, each added paragraph either fit under `maxWords` or was needed to reach `minWords`. */
  lemma ChunksGrowLegally(paras: seq<string>, minWords: int, maxWords: int)
    ensures AllGrowLegally(Pack(paras, minWords, maxWords), minWords, maxWords)
  {
    PackGrowsLegally(paras, [], 0, minWords, maxWords);
  }

  /** Every chunk boundary is one the greedy rule forces. */
  lemma ChunksCloseOnlyWhenFull(paras: seq<string>, minWords: int, maxWords: int)
    ensures ClosesOnlyWhenFull(Pack(paras, minWords, maxWords), minWords, maxWords)
  {
    PackClosesOnlyWhenFull(paras, [], 0, minWords, maxWords);
  }

  // ---------------------------------------------------------------- chunk type heuristic

  const EmotionWords: seq<string> := ["sentí", "siento", "emoción", "feliz", "triste", "ansioso", "enojado",
                                      "frustrado", "emocionado", "nervioso", "alegre", "deprimido"]
  const ReflectionWords: seq<string> := ["creo", "pienso", "reflexión", "aprendí", "me di cuenta", "comprendo",
                                         "entiendo", "debería", "necesito", "quiero", "debo"]
  const FactWords: seq<string> := ["hoy", "fui", "hice", "pasó", "ocurrió", "reunión", "trabajo",
                                   "proyecto", "tarea", "clase", "estudié"]

  /** How many of the keywords occur in `text`. */
  function Score(text: string, keywords: seq<string>): (n: nat)
    ensures n <= |keywords|
  {
    if keywords == [] then 0
    else (if Contains(text, keywords[0]) then 1 else 0) + Score(text, keywords[1..])
  }

  function Max3(a: int, b: int, c: int): int {
    if a >= b && a >= c then a else if b >= c then b else c
  }

  /**
   * The decision on three scores, in the source's order emociones,
   * reflexion, hechos: `mixto` when the best score is 0 or shared.
   */
  function TypeOfScores(e: nat, r: nat, h: nat): string {
    var top := Max3(e, r, h);
    if top == 0 then "mixto"
    else
      var leaders := (if e == top then ["emociones"] else [])
                   + (if r == top then ["reflexion"] else [])
                   + (if h == top then ["hechos"] else []);
      if |leaders| > 1 then "mixto" else leaders[0]
  }

  /** The unique strict maximum names the type; anything else is `mixto`. */
  lemma TypeOfScoresIsStrictArgMax(e: nat, r: nat, h: nat)
    ensures TypeOfScores(e, r, h) == "emociones" <==> e > r && e > h
    ensures TypeOfScores(e, r, h) == "reflexion" <==> r > e && r > h
    ensures TypeOfScores(e, r, h) == "hechos" <==> h > e && h > r
    ensures TypeOfScores(e, r, h) == "mixto" <==> !(e > r && e > h) && !(r > e && r > h) && !(h > e && h > r)
  {
  }

  /** `clasificar_tipo_chunk(texto, analisis)`; the analysis argument is unused by the source. */
  function ClassifyChunk(texto: string): (t: string)
    ensures t in {"emociones", "reflexion", "hechos", "mixto"}
  {
    var lower := Lower(texto);
    TypeOfScoresIsStrictArgMax(Score(lower, EmotionWords), Score(lower, ReflectionWords), Score(lower, FactWords));
    TypeOfScores(Score(lower, EmotionWords), Score(lower, ReflectionWords), Score(lower, FactWords))
  }

  /** A text with none of the keywords is `mixto`. */
  lemma {:induction false} NoKeywordsIsMixed(texto: string)
    requires forall k :: 0 <= k < |EmotionWords| ==> !Contains(Lower(texto), EmotionWords[k])
    requires forall k :: 0 <= k < |ReflectionWords| ==> !Contains(Lower(texto), ReflectionWords[k])
    requires forall k :: 0 <= k < |FactWords| ==> !Contains(Lower(texto), FactWords[k])
    ensures ClassifyChunk(texto) == "mixto"
  {
    var lower := Lower(texto);
    ScoreZero(lower, EmotionWords);
    ScoreZero(lower, ReflectionWords);
    ScoreZero(lower, FactWords);
  }

  lemma {:induction false} ScoreZero(text: string, keywords: seq<string>)
    requires forall k :: 0 <= k < |keywords| ==> !Contains(text, keywords[k])
    ensures Score(text, keywords) == 0
  {
    if keywords != [] {
      ScoreZero(text, keywords[1..]);
    }
  }
}
