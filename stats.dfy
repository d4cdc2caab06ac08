/**
 * The statistics endpoint: aggregate emotion figures over the analysis
 * history, with the emotion names normalised, global and current-month
 * counts, the top five, and per-day shares for the last seven days. The
 * clock is the `today` parameter.
 */
module Stats {
  import opened Wrappers
  import opened Text
  import opened Json
  import opened Calendar
  import opened Seqs
  import opened LegacyFiles

  // ---------------------------------------------------------------- normalize_emotion

  /** Synonyms folded into one emotion name. */
  const Synonyms: map<string, string> := map[
    "felicidad" := "alegría", "feliz" := "alegría", "emocionado" := "alegría", "emocionante" := "alegría",
    "tranquilidad" := "calma", "paz" := "calma",
    "estrés" := "ansiedad", "nervios" := "ansiedad",
    "tristeza" := "tristeza",
    "miedo" := "miedo", "inseguridad" := "miedo",
    "frustración" := "frustración",
    "enojo" := "enojo",
    "aburrimiento" := "aburrimiento", "aburrido" := "aburrimiento"
  ]

  /** `normalize_emotion`: lower case, strip, then fold synonyms; other names pass through. */
  function NormalizeEmotion(e: string): string {
    var k := Strip(Lower(e));
    if k in Synonyms then Synonyms[k] else k
  }

  /** A name `lower()` and `strip()` leave as it is. */
  predicate Canonical(s: string) {
    Stripped(s) && forall i :: 0 <= i < |s| ==> LowerChar(s[i]) == s[i]
  }

  lemma CanonicalFixed(s: string)
    requires Canonical(s)
    ensures Strip(Lower(s)) == s
  {
    assert Lower(s) == s;
    StripStripped(s);
  }

  /** Every name the synonym table produces is canonical and maps to itself, if at all. */
  lemma SynonymsCanonical(k: string)
    requires k in Synonyms
    ensures Canonical(Synonyms[k])
    ensures Synonyms[k] in Synonyms ==> Synonyms[Synonyms[k]] == Synonyms[k]
  {
    var v := Synonyms[k];
    assert v in Targets;
    TargetCanonical(v);
  }

  /** The names the synonym table folds into. */
  const Targets: set<string> := {"alegría", "calma", "ansiedad", "tristeza", "miedo", "frustración", "enojo", "aburrimiento"}

  lemma TargetCanonical(v: string)
    requires v in Targets
    ensures Canonical(v)
    ensures v in Synonyms ==> Synonyms[v] == v
  {
    assert Stripped(v);
  }

  /** Every character of a lower-cased string is its own lower case. */
  lemma LowerFixed(e: string)
    ensures forall j :: 0 <= j < |Lower(e)| ==> LowerChar(Lower(e)[j]) == Lower(e)[j]
  {
    forall j | 0 <= j < |e| ensures LowerChar(Lower(e)[j]) == Lower(e)[j] {
      LowerCharIdempotent(e[j]);
    }
  }

  /** A piece of a string whose characters are their own lower case has the same property. */
  lemma SliceFixed(l: string, k: string, i: nat)
    requires i <= |l| && k <= l[i..]
    requires forall j :: 0 <= j < |l| ==> LowerChar(l[j]) == l[j]
    ensures forall j :: 0 <= j < |k| ==> LowerChar(k[j]) == k[j]
  {
    forall j | 0 <= j < |k| ensures LowerChar(k[j]) == k[j] {
      assert k[j] == l[i + j];
    }
  }

  /** A name `lower()` and `strip()` produce is canonical. */
  lemma LowerStripCanonical(e: string)
    ensures Canonical(Strip(Lower(e)))
  {
    var l := Lower(e);
    LowerFixed(e);
    var k := Strip(l);
    var i :| 0 <= i <= |l| && k <= l[i..];
    SliceFixed(l, k, i);
  }

  /** `normalize_emotion` is idempotent: a normalised name normalises to itself. */
  lemma NormalizeIdempotent(e: string)
    ensures NormalizeEmotion(NormalizeEmotion(e)) == NormalizeEmotion(e)
  {
    var k := Strip(Lower(e));
    if k in Synonyms {
      SynonymsCanonical(k);
      CanonicalFixed(Synonyms[k]);
    } else {
      LowerStripCanonical(e);
      CanonicalFixed(k);
    }
  }

  // ---------------------------------------------------------------- Counter

  /** One `(name, count)` pair of a `Counter`. */
  datatype Count = Count(name: string, value: nat)

  predicate Distinct(xs: seq<string>) {
    forall i, j :: 0 <= i < j < |xs| ==> xs[i] != xs[j]
  }

  /** The distinct names of `xs` in the order they first occur (a dict's insertion order). */
  function FirstSeen(xs: seq<string>): seq<string>
    decreases |xs|
  {
    if xs == [] then []
    else
      var init := xs[..|xs| - 1];
      var p := FirstSeen(init);
      if xs[|xs| - 1] in init then p else p + [xs[|xs| - 1]]
  }

  lemma {:induction false} FirstSeenSpec(xs: seq<string>)
    ensures Distinct(FirstSeen(xs))
    ensures forall e :: e in FirstSeen(xs) <==> e in xs
    decreases |xs|
  {
    if xs != [] {
      var init := xs[..|xs| - 1];
      FirstSeenSpec(init);
      assert xs == init + [xs[|xs| - 1]];
    }
  }

  function Names(cs: seq<Count>): (r: seq<string>)
    ensures |r| == |cs|
    ensures forall i :: 0 <= i < |cs| ==> r[i] == cs[i].name
  {
    if cs == [] then [] else [cs[0].name] + Names(cs[1..])
  }

  /** The sum of the counts. */
  function Total(cs: seq<Count>): nat {
    if cs == [] then 0 else cs[0].value + Total(cs[1..])
  }

  /** One more occurrence of `e`: its pair is incremented, or `(e, 1)` is appended. */
  function Bump(cs: seq<Count>, e: string): seq<Count> {
    if cs == [] then [Count(e, 1)]
    else if cs[0].name == e then [Count(e, cs[0].value + 1)] + cs[1..]
    else [cs[0]] + Bump(cs[1..], e)
  }

  lemma {:induction false} BumpSpec(cs: seq<Count>, e: string)
    requires Distinct(Names(cs))
    ensures Names(Bump(cs, e)) == Names(cs) + (if e in Names(cs) then [] else [e])
    ensures Total(Bump(cs, e)) == Total(cs) + 1
    ensures forall i :: 0 <= i < |Bump(cs, e)| ==>
      Bump(cs, e)[i].value == (if i < |cs| then cs[i].value else 0) + (if Bump(cs, e)[i].name == e then 1 else 0)
  {
    if cs != [] && cs[0].name != e {
      assert Distinct(Names(cs[1..])) by {
        assert forall i :: 0 <= i < |cs| - 1 ==> Names(cs[1..])[i] == Names(cs)[i + 1];
      }
      BumpSpec(cs[1..], e);
      assert e in Names(cs) <==> e in Names(cs[1..]);
    } else if cs != [] {
      forall i | 1 <= i < |cs| ensures cs[i].name != e {
        assert Names(cs)[0] != Names(cs)[i];
      }
    }
  }

  /** `Counter(xs)`: the names of `xs` in first-seen order, each with its number of occurrences. */
  function Counted(xs: seq<string>): seq<Count>
    decreases |xs|
  {
    if xs == [] then [] else Bump(Counted(xs[..|xs| - 1]), xs[|xs| - 1])
  }

  /**
   * The counter lists each distinct name once, in first-seen order, with its
   * number of occurrences, and its counts add up to the length of the list.
   */
  lemma {:induction false} CountedSpec(xs: seq<string>)
    ensures Names(Counted(xs)) == FirstSeen(xs)
    ensures Total(Counted(xs)) == |xs|
    ensures forall i :: 0 <= i < |Counted(xs)| ==> Counted(xs)[i].value == multiset(xs)[Counted(xs)[i].name]
    decreases |xs|
  {
    if xs != [] {
      var init, e := xs[..|xs| - 1], xs[|xs| - 1];
      var c := Counted(init);
      CountedSpec(init);
      FirstSeenSpec(init);
      BumpSpec(c, e);
      assert xs == init + [e];
      assert multiset(xs) == multiset(init) + multiset{e};
      var r := Bump(c, e);
      forall i | 0 <= i < |r| ensures r[i].value == multiset(xs)[r[i].name] {
        assert Names(r)[i] == r[i].name;
        if i == |c| {
          assert e !in init;
        }
      }
    }
  }

  // ---------------------------------------------------------------- most_common

  /** Counts in non-increasing order. */
  predicate ByCount(s: seq<Count>) {
    forall i, j :: 0 <= i < j < |s| ==> s[i].value >= s[j].value
  }

  /** The pairs with count `v`. */
  function HasValue(v: nat): Count -> bool {
    (c: Count) => c.value == v
  }

  /** Insert `x` after every pair whose count is at least its own. */
  function InsertByCount(s: seq<Count>, x: Count): seq<Count> {
    if s == [] then [x]
    else if s[0].value >= x.value then [s[0]] + InsertByCount(s[1..], x)
    else [x] + s
  }

  lemma ByCountTail(s: seq<Count>)
    requires ByCount(s) && s != []
    ensures ByCount(s[1..])
  {
    forall i, j | 0 <= i < j < |s| - 1 ensures s[1..][i].value >= s[1..][j].value {
      assert s[i + 1].value >= s[j + 1].value;
    }
  }

  lemma ByCountCons(c: Count, t: seq<Count>)
    requires ByCount(t)
    requires forall j :: 0 <= j < |t| ==> c.value >= t[j].value
    ensures ByCount([c] + t)
  {
    var r := [c] + t;
    forall i, j | 0 <= i < j < |r| ensures r[i].value >= r[j].value {
      assert r[j] == t[j - 1];
      if i > 0 {
        assert r[i] == t[i - 1];
      }
    }
  }

  /** Inserting keeps the order by count and adds exactly `x`. */
  lemma {:induction false} InsertByCountSorted(s: seq<Count>, x: Count)
    requires ByCount(s)
    ensures multiset(InsertByCount(s, x)) == multiset(s) + multiset{x}
    ensures ByCount(InsertByCount(s, x))
  {
    if s == [] {
    } else if s[0].value >= x.value {
      var tail := InsertByCount(s[1..], x);
      assert multiset(tail) == multiset(s[1..]) + multiset{x} && ByCount(tail) by {
        ByCountTail(s);
        InsertByCountSorted(s[1..], x);
      }
      assert InsertByCount(s, x) == [s[0]] + tail;
      assert s == [s[0]] + s[1..];
      assert ByCount([s[0]] + tail) by {
        HeadAboveInserted(s, x, tail);
        ByCountCons(s[0], tail);
      }
    } else {
      assert InsertByCount(s, x) == [x] + s;
      assert ByCount([x] + s) by {
        forall j | 0 <= j < |s| ensures x.value >= s[j].value {
          assert j == 0 || s[0].value >= s[j].value;
        }
        ByCountCons(x, s);
      }
    }
  }

  /** The head of a sorted list counts at least as much as anything in its tail with `x` added, when it counts at least `x`. */
  lemma HeadAboveInserted(s: seq<Count>, x: Count, tail: seq<Count>)
    requires ByCount(s) && s != [] && s[0].value >= x.value
    requires multiset(tail) == multiset(s[1..]) + multiset{x}
    ensures forall j :: 0 <= j < |tail| ==> s[0].value >= tail[j].value
  {
    forall j | 0 <= j < |tail| ensures s[0].value >= tail[j].value {
      assert tail[j] in multiset(tail);
      if tail[j] != x {
        assert tail[j] in multiset(s[1..]);
        var k :| 0 <= k < |s| - 1 && s[1..][k] == tail[j];
        assert s[0].value >= s[k + 1].value;
      }
    }
  }

  /** Inserting `x` puts it after every pair of its own count. */
  lemma {:induction false} InsertByCountStable(s: seq<Count>, x: Count, v: nat)
    requires ByCount(s)
    ensures Filter(InsertByCount(s, x), HasValue(v)) == Filter(s, HasValue(v)) + (if x.value == v then [x] else [])
  {
    if s == [] {
      assert [x][1..] == [];
    } else if s[0].value >= x.value {
      var tail := InsertByCount(s[1..], x);
      ByCountTail(s);
      InsertByCountStable(s[1..], x, v);
      assert InsertByCount(s, x) == [s[0]] + tail;
      FilterUnderHead(s, tail, HasValue(v), if x.value == v then [x] else []);
    } else {
      assert InsertByCount(s, x) == [x] + s;
      FilterFront(s, x, v);
    }
  }

  /** Filtering a list whose tail was replaced by `tail` adds what filtering the tail added. */
  lemma FilterUnderHead(s: seq<Count>, tail: seq<Count>, p: Count -> bool, added: seq<Count>)
    requires s != [] && Filter(tail, p) == Filter(s[1..], p) + added
    ensures Filter([s[0]] + tail, p) == Filter(s, p) + added
  {
    var head, rest := [s[0]], s[1..];
    assert s == head + rest;
    calc {
      Filter(head + tail, p);
      { FilterAppend(head, tail, p); }
      Filter(head, p) + Filter(tail, p);
      Filter(head, p) + (Filter(rest, p) + added);
      (Filter(head, p) + Filter(rest, p)) + added;
      { FilterAppend(head, rest, p); }
      Filter(head + rest, p) + added;
    }
  }

  /** A pair counting more than the head goes first, and no pair of its count precedes it. */
  lemma FilterFront(s: seq<Count>, x: Count, v: nat)
    requires ByCount(s) && s != [] && s[0].value < x.value
    ensures Filter([x] + s, HasValue(v)) == Filter(s, HasValue(v)) + (if x.value == v then [x] else [])
  {
    var p := HasValue(v);
    FilterAppend([x], s, p);
    FilterSnoc([], x, p);
    if x.value == v {
      InsertedAboveAll(s, x);
      FilterNone(s, p);
    }
  }

  /** A pair counting more than the head of a sorted list counts more than all of it. */
  lemma InsertedAboveAll(s: seq<Count>, x: Count)
    requires ByCount(s) && s != [] && s[0].value < x.value
    ensures forall y :: y in s ==> !HasValue(x.value)(y)
  {
    forall y | y in s ensures !HasValue(x.value)(y) {
      var j :| 0 <= j < |s| && s[j] == y;
      assert j == 0 || s[0].value >= s[j].value;
    }
  }

  /** `most_common()`: a stable sort by count, highest first, so ties keep first-seen order. */
  function MostCommon(cs: seq<Count>): seq<Count>
    decreases |cs|
  {
    if cs == [] then [] else InsertByCount(MostCommon(cs[..|cs| - 1]), cs[|cs| - 1])
  }

  /**
   * `most_common()` is a permutation of the counter sorted by count, and the
   * pairs of each count appear in the counter's own order.
   */
  lemma {:induction false} MostCommonSpec(cs: seq<Count>)
    ensures multiset(MostCommon(cs)) == multiset(cs)
    ensures ByCount(MostCommon(cs))
    ensures forall v :: Filter(MostCommon(cs), HasValue(v)) == Filter(cs, HasValue(v))
    decreases |cs|
  {
    if cs != [] {
      var init, x := cs[..|cs| - 1], cs[|cs| - 1];
      var m := MostCommon(init);
      assert MostCommon(cs) == InsertByCount(m, x);
      assert cs == init + [x];
      MostCommonSpec(init);
      InsertByCountSorted(m, x);
      forall v ensures Filter(InsertByCount(m, x), HasValue(v)) == Filter(cs, HasValue(v)) {
        var added := if x.value == v then [x] else [];
        calc {
          Filter(InsertByCount(m, x), HasValue(v));
          { InsertByCountStable(m, x, v); }
          Filter(m, HasValue(v)) + added;
          Filter(init, HasValue(v)) + added;
          { FilterSnoc(init, x, HasValue(v)); }
          Filter(init + [x], HasValue(v));
        }
      }
    }
  }

  /** `most_common(n)`. */
  function Top(cs: seq<Count>, n: nat): (r: seq<Count>)
    ensures |r| <= n
  {
    var s := MostCommon(cs);
    if |s| <= n then s else s[..n]
  }

  /**
   * `most_common(n)` keeps at most `n` pairs of the counter, highest first;
   * every pair it leaves out counts no more than any pair it keeps, and among
   * pairs of one count it keeps the first-seen ones.
   */
  lemma TopSpec(cs: seq<Count>, n: nat)
    ensures |Top(cs, n)| == if |cs| <= n then |cs| else n
    ensures ByCount(Top(cs, n))
    ensures forall c :: c in Top(cs, n) ==> c in cs
    ensures forall c, t :: c in cs && c !in Top(cs, n) && t in Top(cs, n) ==> t.value >= c.value
    ensures forall v :: Filter(Top(cs, n), HasValue(v)) <= Filter(cs, HasValue(v))
  {
    var s := MostCommon(cs);
    var t := Top(cs, n);
    MostCommonSpec(cs);
    assert |s| == |cs| by {
      assert |multiset(s)| == |multiset(cs)|;
    }
    assert t <= s;
    PrefixByCount(s, t);
    PrefixMembers(s, t, cs);
    PrefixAbove(s, t, cs);
    forall v ensures Filter(t, HasValue(v)) <= Filter(cs, HasValue(v)) {
      assert s == t + s[|t|..];
      FilterAppend(t, s[|t|..], HasValue(v));
    }
  }

  lemma PrefixByCount(s: seq<Count>, t: seq<Count>)
    requires ByCount(s) && t <= s
    ensures ByCount(t)
  {
    forall i, j | 0 <= i < j < |t| ensures t[i].value >= t[j].value {
      assert t[i] == s[i] && t[j] == s[j];
    }
  }

  lemma PrefixMembers(s: seq<Count>, t: seq<Count>, cs: seq<Count>)
    requires multiset(s) == multiset(cs) && t <= s
    ensures forall c :: c in t ==> c in cs
  {
    forall c | c in t ensures c in cs {
      var i :| 0 <= i < |t| && t[i] == c;
      assert s[i] == c;
      assert c in multiset(s);
    }
  }

  lemma PrefixAbove(s: seq<Count>, t: seq<Count>, cs: seq<Count>)
    requires multiset(s) == multiset(cs) && ByCount(s) && t <= s
    ensures forall c, u :: c in cs && c !in t && u in t ==> u.value >= c.value
  {
    forall c, u | c in cs && c !in t && u in t ensures u.value >= c.value {
      assert c in multiset(s);
      PrefixAboveRest(s, t, c, u);
    }
  }

  /** In a list sorted by count, anything in a prefix counts at least as much as anything outside it. */
  lemma PrefixAboveRest(s: seq<Count>, t: seq<Count>, c: Count, u: Count)
    requires ByCount(s) && t <= s
    requires c in s && c !in t && u in t
    ensures u.value >= c.value
  {
    var j :| 0 <= j < |s| && s[j] == c;
    var i :| 0 <= i < |t| && t[i] == u;
    assert j >= |t|;
    assert s[i] == u;
  }

  // ---------------------------------------------------------------- the last seven days

  /** `today - timedelta(days=n)` for a day that exists. */
  function DayBefore(today: Date, n: nat): (d: Date)
    requires ValidDate(today) && n < Ordinal(today)
    ensures ValidDate(d) && Ordinal(d) == Ordinal(today) - n
  {
    DaysBackDefined(today, n);
    DaysBackOrdinal(today, n);
    DaysBack(today, n).value
  }

  /** `today - 6 days` .. `today`, oldest first; None where that passes the first day Python knows. */
  function LastWeek(today: Date): (r: Option<seq<Date>>)
    requires ValidDate(today)
    ensures r.Some? ==> |r.value| == 7 && forall i :: 0 <= i < 7 ==> ValidDate(r.value[i])
  {
    if Ordinal(today) <= 6 then None
    else Some(seq(7, i requires 0 <= i < 7 => DayBefore(today, 6 - i)))
  }

  /** The seven days are real, consecutive and end with today. */
  lemma LastWeekSpec(today: Date)
    requires ValidDate(today)
    ensures LastWeek(today).Some? <==> Ordinal(today) > 6
    ensures LastWeek(today).Some? ==> var w := LastWeek(today).value;
      && |w| == 7 && w[6] == today
      && forall i :: 0 <= i < 7 ==> ValidDate(w[i]) && Ordinal(w[i]) == Ordinal(today) - 6 + i
  {
  }

  const WeekdayLabels: seq<string> := ["Lun", "Mar", "Mié", "Jue", "Vie", "Sáb", "Dom"]

  function DayLabels(week: seq<Date>): (r: seq<string>)
    requires forall i :: 0 <= i < |week| ==> ValidDate(week[i])
  {
    seq(|week|, i requires 0 <= i < |week| => WeekdayLabels[Weekday(week[i])])
  }

  lemma ModSevenShift(o: int, i: int)
    ensures (o + i) % 7 == ((o + 6) % 7 + i + 1) % 7
  {
    var q := (o + 6) / 7;
    assert (o + 6) % 7 + i + 1 == o + i + 7 - 7 * q;
  }

  lemma WeekdayOfWeek(today: Date, d: Date, i: nat)
    requires ValidDate(today) && ValidDate(d) && Ordinal(d) == Ordinal(today) - 6 + i
    ensures Weekday(d) == (Weekday(today) + i + 1) % 7
  {
    ModSevenShift(Ordinal(today), i);
  }

  /** The labels run through consecutive weekdays and the last one is today's. */
  lemma DayLabelsOfWeek(today: Date)
    requires ValidDate(today) && Ordinal(today) > 6
    ensures var labels := DayLabels(LastWeek(today).value);
      && |labels| == 7
      && forall i :: 0 <= i < 7 ==> labels[i] == WeekdayLabels[(Weekday(today) + i + 1) % 7]
  {
    var w := LastWeek(today).value;
    LastWeekSpec(today);
    forall i | 0 <= i < 7 ensures Weekday(w[i]) == (Weekday(today) + i + 1) % 7 {
      WeekdayOfWeek(today, w[i], i);
    }
  }

  /**
   * The day keys are `strftime("%d-%m-%Y")` strings; for real days equal keys
   * mean equal days, so a key lookup is a day comparison.
   */
  lemma DayKeyIdentifiesDay(a: Date, b: Date)
    requires ValidDate(a) && ValidDate(b)
    ensures DmyFormat(a) == DmyFormat(b) <==> a == b
  {
    ParseDmyFormat(a);
    ParseDmyFormat(b);
  }

  // ---------------------------------------------------------------- one history entry

  /** The emotions of an entry that survive cleaning, normalised. */
  function Clean(items: seq<Json>): (r: seq<string>)
    ensures |r| <= |items|
  {
    if items == [] then []
    else (if items[0].JStr? then [NormalizeEmotion(items[0].s)] else []) + Clean(items[1..])
  }

  /** An exception inside the aggregation: answered with HTTP 500. */
  datatype StatsError = InternalError

  /**
   * The lists the aggregation loop extends: all emotions, this month's
   * emotions, and one list per day of the week.
   */
  datatype Tally = Tally(all: seq<string>, month: seq<string>, days: seq<seq<string>>)

  /**
   * The cleaned emotions of one entry, None where the entry is skipped; an
   * entry that is not a dict, or whose truthy `emotions` cannot be iterated,
   * raises.
   */
  function EntryEmotions(entry: Json): Result<Option<seq<string>>, StatsError> {
    if !entry.JObj? then Err(InternalError)
    else
      var emotions := Get(entry.fields, "emotions", JArr([]));
      if !Truthy(emotions) then Ok(None)
      else if emotions.JStr? then Ok(Some(Clean([emotions])))
      else
        var items := Iterate(emotions);
        if items.None? then Err(InternalError) else Ok(Some(Clean(items.value)))
  }

  /** The day of an entry; a truthy `fecha` that is not a string makes `strptime` raise. */
  function EntryDay(entry: Obj): Result<Option<Date>, StatsError> {
    var fecha := Get(entry, "fecha", JNull);
    if !Truthy(fecha) then Ok(None)
    else if !fecha.JStr? then Err(InternalError)
    else Ok(ParseEither(fecha.s))
  }

  function AddToDay(days: seq<seq<string>>, week: seq<Date>, d: Date, clean: seq<string>): (r: seq<seq<string>>)
    ensures |r| == |days|
  {
    seq(|days|, i requires 0 <= i < |days| => if i < |week| && week[i] == d then days[i] + clean else days[i])
  }

  /** One pass of the aggregation loop. */
  function Step(t: Tally, entry: Json, today: Date, week: seq<Date>): Result<Tally, StatsError> {
    var emotions :- EntryEmotions(entry);
    if emotions.None? then Ok(t)
    else
      var clean := emotions.value;
      var day :- EntryDay(entry.fields);
      if day.None? then Ok(t.(all := t.all + clean))
      else
        var d := day.value;
        Ok(Tally(t.all + clean,
                 if d.year == today.year && d.month == today.month then t.month + clean else t.month,
                 AddToDay(t.days, week, d, clean)))
  }

  /** The aggregation loop over the history. */
  function Collect(data: seq<Json>, today: Date, week: seq<Date>): Result<Tally, StatsError>
    decreases |data|
  {
    if data == [] then Ok(Tally([], [], seq(|week|, _ => [])))
    else
      var t :- Collect(data[..|data| - 1], today, week);
      Step(t, data[|data| - 1], today, week)
  }

  /**
   * An entry with emotions and no usable date counts toward the global
   * figures only; one dated outside the week and the month adds to neither.
   */
  lemma UndatedCountsGlobally(t: Tally, entry: Json, today: Date, week: seq<Date>)
    requires EntryEmotions(entry).Ok? && EntryEmotions(entry).value.Some?
    requires EntryDay(entry.fields).Ok?
    ensures var clean := EntryEmotions(entry).value.value;
      var day := EntryDay(entry.fields).value;
      && Step(t, entry, today, week).Ok?
      && Step(t, entry, today, week).value.all == t.all + clean
      && (day.None? ==> Step(t, entry, today, week).value == t.(all := t.all + clean))
      && (day.Some? && day.value !in week && (day.value.year, day.value.month) != (today.year, today.month) ==>
            Step(t, entry, today, week).value == t.(all := t.all + clean))
  {
    var day := EntryDay(entry.fields).value;
    if day.Some? && day.value !in week {
      assert AddToDay(t.days, week, day.value, EntryEmotions(entry).value.value) == t.days;
    }
  }

  /** An entry without emotions changes nothing, whatever its date. */
  lemma NoEmotionsSkipped(t: Tally, entry: Obj, today: Date, week: seq<Date>)
    requires !Truthy(Get(entry, "emotions", JArr([])))
    ensures Step(t, JObj(entry), today, week) == Ok(t)
  {
  }

  /** The week lists always hold one list per day. */
  lemma {:induction false} CollectDays(data: seq<Json>, today: Date, week: seq<Date>)
    ensures Collect(data, today, week).Ok? ==> |Collect(data, today, week).value.days| == |week|
    decreases |data|
  {
    if data != [] {
      CollectDays(data[..|data| - 1], today, week);
    }
  }

  /** Once an entry raises, the whole aggregation fails. */
  lemma {:induction false} CollectFailsAfter(data: seq<Json>, k: nat, today: Date, week: seq<Date>)
    requires k <= |data| && Collect(data[..k], today, week).Err?
    ensures Collect(data, today, week) == Err(InternalError)
    decreases |data|
  {
    if k < |data| {
      assert data[..|data| - 1][..k] == data[..k];
      CollectFailsAfter(data[..|data| - 1], k, today, week);
    } else {
      assert data[..k] == data;
      match Collect(data, today, week).error
      case InternalError =>
    }
  }

  // ---------------------------------------------------------------- the reply

  /** A point of a trend line: `count` of the day's `total` emotions; Python sends `round(count / total * 100)`, 0 when `total` is 0. */
  datatype Share = Share(count: nat, total: nat)

  /** A chart line; `legend` is the reply's `label` field. */
  datatype Dataset = Dataset(legend: string, data: seq<Share>, borderColor: string)

  datatype Report = Report(
    totalEntries: nat,
    emotionCounts: seq<Count>,
    topEmotions: seq<Count>,
    monthEmotions: seq<Count>,
    dates: seq<string>,
    datasets: seq<Dataset>)

  /** The reply when there is no history to read. */
  const Empty := Report(0, [], [], [], [], [])

  const Colours: seq<string> := ["#818cf8", "#c084fc", "#60a5fa"]

  function Flatten(days: seq<seq<string>>): seq<string> {
    if days == [] then [] else days[0] + Flatten(days[1..])
  }

  /** The chart's emotions: the week's top three, or the overall top three when the week has none. */
  function ChartEmotions(t: Tally): seq<string> {
    var recent := Names(Top(Counted(Flatten(t.days)), 3));
    if recent != [] then recent else Names(Top(Counted(t.all), 3))
  }

  function Line(emotion: string, days: seq<seq<string>>): (r: seq<Share>)
    ensures |r| == |days|
  {
    seq(|days|, j requires 0 <= j < |days| => Share(multiset(days[j])[emotion], |days[j]|))
  }

  function Datasets(chart: seq<string>, days: seq<seq<string>>): (r: seq<Dataset>)
    ensures |r| == |chart|
    ensures forall i :: 0 <= i < |chart| ==>
      r[i].legend == Capitalize(chart[i]) && |r[i].data| == |days| && r[i].borderColor in Colours
  {
    seq(|chart|, i requires 0 <= i < |chart| => Dataset(Capitalize(chart[i]), Line(chart[i], days), Colours[i % 3]))
  }

  function ReportOf(total: nat, t: Tally, week: seq<Date>): Report
    requires forall i :: 0 <= i < |week| ==> ValidDate(week[i])
  {
    var counts := Counted(t.all);
    Report(total, counts, Top(counts, 5), Counted(t.month), DayLabels(week), Datasets(ChartEmotions(t), t.days))
  }

  /**
   * `stats()` over the history file: no file, or content that is not a list,
   * gives the empty figures; content that does not parse raises.
   */
  function StatsOf(history: StoredJson, today: Date): Result<Report, StatsError>
    requires ValidDate(today)
  {
    match history
    case Missing => Ok(Empty)
    case Blank => Err(InternalError)
    case Garbage => Err(InternalError)
    case Holds(v) =>
      if !v.JArr? then Ok(Empty)
      else
        var week := LastWeek(today);
        if week.None? then Err(InternalError)
        else
          var t :- Collect(v.items, today, week.value);
          LastWeekSpec(today);
          Ok(ReportOf(|v.items|, t, week.value))
  }

  /** The figures of a readable history are the report of its aggregated lists, over a full week. */
  lemma ReportOfHistory(data: seq<Json>, today: Date)
    requires ValidDate(today)
    requires StatsOf(Holds(JArr(data)), today).Ok?
    ensures LastWeek(today).Some?
    ensures Collect(data, today, LastWeek(today).value).Ok?
    ensures var week := LastWeek(today).value;
      var t := Collect(data, today, week).value;
      && |week| == 7 && |t.days| == 7
      && StatsOf(Holds(JArr(data)), today).value == ReportOf(|data|, t, week)
  {
    LastWeekSpec(today);
    CollectDays(data, today, LastWeek(today).value);
  }

  /**
   * `total_entries` counts every entry, and the counts list each cleaned
   * emotion once, in first-seen order, with its number of occurrences, so
   * they sum to the number of cleaned emotions.
   */
  lemma ReportCounts(data: seq<Json>, today: Date)
    requires ValidDate(today)
    requires StatsOf(Holds(JArr(data)), today).Ok?
    ensures var r := StatsOf(Holds(JArr(data)), today).value;
      var t := Collect(data, today, LastWeek(today).value).value;
      && r.totalEntries == |data|
      && Names(r.emotionCounts) == FirstSeen(t.all)
      && Total(r.emotionCounts) == |t.all|
      && (forall i :: 0 <= i < |r.emotionCounts| ==> r.emotionCounts[i].value == multiset(t.all)[r.emotionCounts[i].name])
  {
    ReportOfHistory(data, today);
    CountedSpec(Collect(data, today, LastWeek(today).value).value.all);
  }

  /** The top five are the largest counts, highest first. */
  lemma ReportTop(data: seq<Json>, today: Date)
    requires ValidDate(today)
    requires StatsOf(Holds(JArr(data)), today).Ok?
    ensures var r := StatsOf(Holds(JArr(data)), today).value;
      && |r.topEmotions| <= 5 && ByCount(r.topEmotions)
      && (forall c :: c in r.topEmotions ==> c in r.emotionCounts)
      && (forall c, u :: c in r.emotionCounts && c !in r.topEmotions && u in r.topEmotions ==> u.value >= c.value)
  {
    ReportOfHistory(data, today);
    TopSpec(Counted(Collect(data, today, LastWeek(today).value).value.all), 5);
  }

  /**
   * The labels name seven consecutive weekdays ending today; there are at
   * most three datasets of seven points, and a day without emotions scores 0.
   */
  lemma ReportWeek(data: seq<Json>, today: Date)
    requires ValidDate(today)
    requires StatsOf(Holds(JArr(data)), today).Ok?
    ensures var r := StatsOf(Holds(JArr(data)), today).value;
      && |r.dates| == 7
      && (forall i :: 0 <= i < 7 ==> r.dates[i] == WeekdayLabels[(Weekday(today) + i + 1) % 7])
      && |r.datasets| <= 3
      && (forall i, j :: 0 <= i < |r.datasets| && 0 <= j < |r.datasets[i].data| ==>
            |r.datasets[i].data| == 7 && (r.datasets[i].data[j].total == 0 ==> r.datasets[i].data[j].count == 0))
  {
    ReportOfHistory(data, today);
    var t := Collect(data, today, LastWeek(today).value).value;
    assert |ChartEmotions(t)| <= 3;
    DayLabelsOfWeek(today);
  }

  /** The names `most_common(n)` reports occur in the counted list, and there is one as soon as the list is non-empty and `n` positive. */
  lemma TopNames(xs: seq<string>, n: nat)
    ensures forall e :: e in Names(Top(Counted(xs), n)) ==> e in xs
    ensures xs != [] && n > 0 ==> Names(Top(Counted(xs), n)) != []
  {
    var c := Counted(xs);
    var t := Top(c, n);
    assert forall e :: e in Names(c) <==> e in xs by {
      CountedSpec(xs);
      FirstSeenSpec(xs);
    }
    assert (forall u :: u in t ==> u in c) && |t| == (if |c| <= n then |c| else n) by {
      TopSpec(c, n);
    }
    forall e | e in Names(t) ensures e in xs {
      var i :| 0 <= i < |t| && Names(t)[i] == e;
      assert t[i] in c;
      var k :| 0 <= k < |c| && c[k] == t[i];
      assert Names(c)[k] == e;
    }
    if xs != [] && n > 0 {
      assert xs[0] in Names(c);
    }
  }

  /** The chart follows the week's most frequent emotions, and falls back to the overall ones only when the week has none. */
  lemma ChartFallback(t: Tally)
    ensures Flatten(t.days) != [] ==> ChartEmotions(t) == Names(Top(Counted(Flatten(t.days)), 3))
    ensures Flatten(t.days) == [] ==> ChartEmotions(t) == Names(Top(Counted(t.all), 3))
    ensures forall e :: e in ChartEmotions(t) ==> e in t.all || e in Flatten(t.days)
  {
    TopNames(Flatten(t.days), 3);
    TopNames(t.all, 3);
  }

  /** A missing file or a non-list history gives the empty figures; an unparseable one an error. */
  lemma StatsFileCases(v: Json, today: Date)
    requires ValidDate(today)
    ensures StatsOf(Missing, today) == Ok(Empty)
    ensures !v.JArr? ==> StatsOf(Holds(v), today) == Ok(Empty)
    ensures StatsOf(Blank, today).Err? && StatsOf(Garbage, today).Err?
  {
  }

  // ---------------------------------------------------------------- the endpoint

  /** The aggregation loop (the second pass over the history; the first only repeats its checks). */
  method Aggregate(data: seq<Json>, today: Date, week: seq<Date>) returns (r: Result<Tally, StatsError>)
    ensures r == Collect(data, today, week)
  {
    var all: seq<string> := [];
    var month: seq<string> := [];
    var days: seq<seq<string>> := seq(|week|, _ => []);
    var k := 0;
    while k < |data|
      invariant 0 <= k <= |data|
      invariant Collect(data[..k], today, week) == Ok(Tally(all, month, days))
    {
      assert data[..k + 1][..k] == data[..k];
      assert Collect(data[..k + 1], today, week) == Step(Tally(all, month, days), data[k], today, week);
      var emotions := EntryEmotions(data[k]);
      if emotions.Err? {
        CollectFailsAfter(data, k + 1, today, week);
        return Err(InternalError);
      }
      if emotions.value.Some? {
        var clean := emotions.value.value;
        all := all + clean;
        var day := EntryDay(data[k].fields);
        if day.Err? {
          CollectFailsAfter(data, k + 1, today, week);
          return Err(InternalError);
        }
        if day.value.Some? {
          var d := day.value.value;
          if d.year == today.year && d.month == today.month {
            month := month + clean;
          }
          days := AddToDay(days, week, d, clean);
        }
      }
      k := k + 1;
    }
    assert data[..k] == data;
    r := Ok(Tally(all, month, days));
  }

  /** One more chart emotion adds its dataset at the end. */
  lemma DatasetsStep(chart: seq<string>, days: seq<seq<string>>, i: nat)
    requires i < |chart|
    ensures Datasets(chart[..i + 1], days)
      == Datasets(chart[..i], days) + [Dataset(Capitalize(chart[i]), Line(chart[i], days), Colours[i % 3])]
  {
    assert chart[..i + 1][..i] == chart[..i];
  }

  /** The chart datasets: for each chart emotion, its count and the day's total on each day of the week. */
  method BuildDatasets(chart: seq<string>, days: seq<seq<string>>) returns (r: seq<Dataset>)
    ensures r == Datasets(chart, days)
  {
    r := [];
    var i := 0;
    while i < |chart|
      invariant 0 <= i <= |chart|
      invariant r == Datasets(chart[..i], days)
    {
      var points: seq<Share> := [];
      var j := 0;
      while j < |days|
        invariant 0 <= j <= |days|
        invariant points == Line(chart[i], days[..j])
      {
        points := points + [Share(multiset(days[j])[chart[i]], |days[j]|)];
        j := j + 1;
      }
      assert days[..j] == days;
      DatasetsStep(chart, days, i);
      r := r + [Dataset(Capitalize(chart[i]), points, Colours[i % 3])];
      i := i + 1;
    }
    assert chart[..i] == chart;
  }

  /** `stats()`. */
  method ComputeStats(history: StoredJson, today: Date) returns (r: Result<Report, StatsError>)
    requires ValidDate(today)
    ensures r == StatsOf(history, today)
  {
    if history.Missing? {
      return Ok(Empty);
    }
    if !history.Holds? {
      return Err(InternalError);
    }
    if !history.value.JArr? {
      return Ok(Empty);
    }
    var data := history.value.items;
    var week := LastWeek(today);
    if week.None? {
      return Err(InternalError);
    }
    LastWeekSpec(today);
    var t := Aggregate(data, today, week.value);
    if t.Err? {
      return Err(t.error);
    }
    var counts := Counted(t.value.all);
    var chart := ChartEmotions(t.value);
    var datasets := BuildDatasets(chart, t.value.days);
    r := Ok(Report(|data|, counts, Top(counts, 5), Counted(t.value.month), DayLabels(week.value), datasets));
  }
}
