/**
 * Identifiers of journal entries and chunks, the `dd-mm-yyyy.md` file-name
 * convention, and the migration's reverse mapping from an entry id back to
 * a date.
 */
module Ids {
  import opened Wrappers
  import opened Text
  import opened Json
  import opened Calendar

  /**
   * `generar_id_entrada(fecha)`: the first three `-`-separated fields of a
   * `dd-mm-yyyy` string, reordered as `entry_yyyy_mm_dd`. Fewer than three
   * fields make Python raise IndexError (None here); further fields are ignored.
   */
  function EntryId(fecha: string): (r: Option<string>)
    ensures r.Some? <==> |Split(fecha, '-')| >= 3
  {
    var p := Split(fecha, '-');
    if |p| < 3 then None else Some("entry_" + p[2] + "_" + p[1] + "_" + p[0])
  }

  /** A `dd-mm-yyyy` date becomes `entry_yyyy_mm_dd`. */
  lemma EntryIdOfFields(d: string, m: string, y: string)
    requires '-' !in d && '-' !in m && '-' !in y
    ensures EntryId(d + "-" + m + "-" + y) == Some("entry_" + y + "_" + m + "_" + d)
  {
    SplitThree(d, m, y, '-');
  }

  /** `generar_id_chunk(entry_id, index)`: `{entry_id}_chunk_{index}`. */
  function ChunkId(entryId: string, index: Json): (r: string)
    ensures entryId <= r
    ensures r[|entryId|..] == "_chunk_" + Display(index)
  {
    entryId + "_chunk_" + Display(index)
  }

  /** Within one entry, distinct integer positions give distinct chunk ids. */
  lemma ChunkIdInjective(entryId: string, i: int, j: int)
    requires ChunkId(entryId, JInt(i)) == ChunkId(entryId, JInt(j))
    ensures i == j
  {
    var a, b := ChunkId(entryId, JInt(i)), ChunkId(entryId, JInt(j));
    assert a[|entryId| + 7..] == IntToString(i);
    assert b[|entryId| + 7..] == IntToString(j);
    IntToStringInjective(i, j);
  }

  // ---------------------------------------------------------------- file names

  /** `\d{2}-\d{2}-\d{4}\.md` over the whole string. */
  predicate FileNamePattern(n: string) {
    |n| == 13
    && IsDigit(n[0]) && IsDigit(n[1]) && n[2] == '-'
    && IsDigit(n[3]) && IsDigit(n[4]) && n[5] == '-'
    && IsDigit(n[6]) && IsDigit(n[7]) && IsDigit(n[8]) && IsDigit(n[9])
    && n[10..] == ".md"
  }

  /**
   * `validar_nombre_archivo(nombre)`: `re.match(r'^\d{2}-\d{2}-\d{4}\.md$', nombre)`.
   * Python's `$` also matches just before a final newline, so the pattern
   * followed by one `\n` is accepted too.
   */
  predicate ValidFileName(n: string) {
    FileNamePattern(n) || (|n| == 14 && FileNamePattern(n[..13]) && n[13] == '\n')
  }

  /**
   * `extraer_fecha_de_nombre(nombre)`: the name without `.md` when the name is
   * valid and `strptime(..., '%d-%m-%Y')` accepts what is left; None otherwise.
   */
  function DateFromFileName(n: string): Option<string> {
    if !ValidFileName(n) then None
    else
      var f := ReplaceAll(n, ".md", "");
      if ParseDmy(f).Some? then Some(f) else None
  }

  lemma NoDotInStem(n: string)
    requires |n| >= 13 && FileNamePattern(n[..13])
    ensures '.' !in n[..10]
  {
    assert forall i :: 0 <= i < 10 ==> n[..10][i] == n[..13][i];
  }

  /** For a name that passes the pattern, `replace('.md', '')` removes exactly the suffix. */
  lemma StemOfValidName(n: string)
    requires ValidFileName(n)
    ensures ReplaceAll(n, ".md", "") == n[..10] + n[13..]
  {
    NoDotInStem(n);
    assert n == n[..10] + n[10..];
    ReplaceAllSkips(n[..10], n[10..], ".md", "");
    assert n[10..] == ".md" + n[13..];
    assert ReplaceAll(n[13..], ".md", "") == n[13..];
  }

  /** A returned date is the name minus `.md` and names a real day. */
  lemma DateFromFileNameSound(n: string)
    requires DateFromFileName(n).Some?
    ensures n == DateFromFileName(n).value + ".md"
    ensures |DateFromFileName(n).value| == 10
    ensures ParseDmy(DateFromFileName(n).value).Some?
  {
    NewlineNameHasNoDate(n);
    StemOfValidName(n);
    assert n == n[..10] + n[10..];
  }

  /**
   * A name the pattern accepts only thanks to a final newline keeps that
   * newline after `replace`, and `%Y` cannot consume it: no date.
   */
  lemma NewlineNameHasNoDate(n: string)
    ensures ValidFileName(n) && |n| == 14 ==> DateFromFileName(n).None?
  {
    if ValidFileName(n) && |n| == 14 {
      StemOfValidName(n);
      var f := ReplaceAll(n, ".md", "");
      assert f == n[..2] + "-" + n[3..5] + "-" + (n[6..10] + "\n");
      NoDash(n[..2]); NoDash(n[3..5]);
      assert '-' !in n[6..10] + "\n" by {
        NoDash(n[6..10]);
      }
      SplitThree(n[..2], n[3..5], n[6..10] + "\n", '-');
      assert !YearField(Split(f, '-')[2]) by {
        assert !IsDigit((n[6..10] + "\n")[4]);
      }
    }
  }

  /** Every name of the form `dd-mm-yyyy.md` that names a real day yields its stem. */
  lemma DateFromFileNameComplete(f: string)
    requires FileNamePattern(f + ".md") && ParseDmy(f).Some?
    ensures DateFromFileName(f + ".md") == Some(f)
  {
    var n := f + ".md";
    StemOfValidName(n);
    assert n[..10] == f && n[13..] == [];
    assert ReplaceAll(n, ".md", "") == f;
  }

  /** The file of every real day is recognised and yields its date. */
  lemma FileNameOfDay(d: Date)
    requires ValidDate(d)
    ensures DateFromFileName(DmyFormat(d) + ".md") == Some(DmyFormat(d))
  {
    var f := DmyFormat(d);
    ParseDmyFormat(d);
    var dd, m, y := PadNat(d.day, 2), PadNat(d.month, 2), PadNat(d.year, 4);
    assert f + ".md" == dd + "-" + m + "-" + y + ".md";
    DateFromFileNameComplete(f);
  }

  // ---------------------------------------------------------------- entry id back to a date

  /**
   * The migration's fallback date for a chunk: `entry_a_b_c...` split on `_`
   * gives `a-b-c`; anything else gives no date.
   */
  function EntryIdDate(eid: string): (r: Option<string>)
  {
    if "entry_" <= eid then
      var parts := Split(eid, '_');
      if |parts| >= 4 then Some(parts[1] + "-" + parts[2] + "-" + parts[3]) else None
    else None
  }

  /** Reading the date back from an entry id reorders `dd-mm-yyyy` into `yyyy-mm-dd`. */
  lemma EntryIdDateReversesEntryId(d: string, m: string, y: string)
    requires '-' !in d && '-' !in m && '-' !in y
    requires '_' !in d && '_' !in m && '_' !in y
    ensures EntryId(d + "-" + m + "-" + y).Some?
    ensures EntryIdDate(EntryId(d + "-" + m + "-" + y).value) == Some(y + "-" + m + "-" + d)
  {
    EntryIdOfFields(d, m, y);
    var eid := "entry_" + y + "_" + m + "_" + d;
    assert eid == "entry" + ['_'] + y + ['_'] + m + ['_'] + d;
    assert eid == "entry" + ['_'] + (y + ['_'] + m + ['_'] + d);
    assert '_' !in "entry";
    SplitAtFirst("entry", '_', y + ['_'] + m + ['_'] + d);
    SplitThree(y, m, d, '_');
  }

  /** A journal day survives the trip to an entry id and back through the migration's date parsing. */
  lemma EntryIdRoundTrip(day: Date)
    requires ValidDate(day)
    ensures EntryId(DmyFormat(day)).Some?
    ensures EntryIdDate(EntryId(DmyFormat(day)).value) == Some(IsoFormat(day))
    ensures ParseEither(IsoFormat(day)) == Some(day)
  {
    var dd, m, y := PadNat(day.day, 2), PadNat(day.month, 2), PadNat(day.year, 4);
    NoDash(dd); NoDash(m); NoDash(y);
    NoUnderscore(dd); NoUnderscore(m); NoUnderscore(y);
    EntryIdDateReversesEntryId(dd, m, y);
    ParseIsoFormat(day);
  }

  lemma NoUnderscore(s: string)
    requires AllDigits(s)
    ensures '_' !in s
  {
    forall i | 0 <= i < |s| ensures s[i] != '_' {
      assert IsDigit(s[i]);
    }
  }
}
