/**
 * Which journal files are waiting to be analysed: the `.md` files of the
 * journal folder whose names follow `dd-mm-yyyy.md`, in date order, minus
 * those whose date already appears in the analysis history. The folder's
 * directory listing and the decoded history are inputs.
 */
module Listing {
  import opened Wrappers
  import opened Text
  import opened Json
  import opened Calendar
  import opened Ids
  import opened Seqs

  /** What the folder path turned out to be; `Dir` holds the names `glob("*.md")` found, in any order. */
  datatype Folder = Absent | NotDir | Dir(names: seq<string>)

  /** FileReadError: a missing folder, a path that is not a folder, or an exception while listing. */
  datatype ListingError = Missing | NotADirectory | ReadFailed

  // ---------------------------------------------------------------- the date order

  /** The sort key: `strptime(name.replace('.md', ''), '%d-%m-%Y')`, None where it raises. */
  function SortKey(n: string): Option<Date> {
    ParseDmy(ReplaceAll(n, ".md", ""))
  }

  predicate AllKeyed(ns: seq<string>) {
    forall i :: 0 <= i < |ns| ==> SortKey(ns[i]).Some?
  }

  predicate SortedByDate(ns: seq<string>)
    requires AllKeyed(ns)
  {
    forall i, j :: 0 <= i < j < |ns| ==> DateLe(SortKey(ns[i]).value, SortKey(ns[j]).value)
  }

  /** Places `n` before the first name that is not earlier, so equal dates keep their order. */
  function Insert(n: string, sorted: seq<string>): (r: seq<string>)
    requires SortKey(n).Some? && AllKeyed(sorted)
    ensures multiset(r) == multiset(sorted) + multiset{n}
    ensures AllKeyed(r)
  {
    if sorted == [] || DateLe(SortKey(n).value, SortKey(sorted[0]).value) then [n] + sorted
    else
      var rest := Insert(n, sorted[1..]);
      KeyedCons(sorted[0], rest);
      assert sorted == [sorted[0]] + sorted[1..];
      [sorted[0]] + rest
  }

  lemma KeyedCons(n: string, rest: seq<string>)
    requires SortKey(n).Some? && AllKeyed(rest)
    ensures AllKeyed([n] + rest)
  {
    var r := [n] + rest;
    forall i | 0 <= i < |r| ensures SortKey(r[i]).Some? {
      if i > 0 {
        assert r[i] == rest[i - 1];
      }
    }
  }

  /** A name no later than anything in a date-ordered list can go in front of it. */
  lemma SortedCons(n: string, rest: seq<string>)
    requires SortKey(n).Some? && AllKeyed(rest) && SortedByDate(rest)
    requires forall i :: 0 <= i < |rest| ==> DateLe(SortKey(n).value, SortKey(rest[i]).value)
    ensures AllKeyed([n] + rest) && SortedByDate([n] + rest)
  {
    var r := [n] + rest;
    assert forall i :: 1 <= i < |r| ==> r[i] == rest[i - 1];
  }

  /** The head of a date-ordered list is no later than any of its names. */
  lemma HeadNoLater(ns: seq<string>, y: string)
    requires AllKeyed(ns) && SortedByDate(ns) && y in ns
    ensures DateLe(SortKey(ns[0]).value, SortKey(y).value)
  {
    var j :| 0 <= j < |ns| && ns[j] == y;
    assert j == 0 || DateLe(SortKey(ns[0]).value, SortKey(ns[j]).value);
  }

  /** Inserting into a date-ordered list keeps it ordered. */
  lemma {:induction false} InsertSorted(n: string, sorted: seq<string>)
    requires SortKey(n).Some? && AllKeyed(sorted) && SortedByDate(sorted)
    ensures SortedByDate(Insert(n, sorted))
  {
    var key := SortKey(n).value;
    if sorted == [] || DateLe(key, SortKey(sorted[0]).value) {
      forall i | 0 <= i < |sorted| ensures DateLe(key, SortKey(sorted[i]).value) {
        HeadNoLater(sorted, sorted[i]);
      }
      SortedCons(n, sorted);
    } else {
      var first := SortKey(sorted[0]).value;
      var rest := Insert(n, sorted[1..]);
      assert sorted == [sorted[0]] + sorted[1..];
      assert AllKeyed(sorted[1..]) && SortedByDate(sorted[1..]);
      InsertSorted(n, sorted[1..]);
      forall i | 0 <= i < |rest| ensures DateLe(first, SortKey(rest[i]).value) {
        if rest[i] != n {
          assert rest[i] in multiset(rest);
          assert rest[i] in multiset(sorted);
          HeadNoLater(sorted, rest[i]);
        }
      }
      SortedCons(sorted[0], rest);
      assert Insert(n, sorted) == [sorted[0]] + rest;
    }
  }

  /** `list.sort(key=...)` once every key exists: a stable insertion sort. */
  function SortByDate(ns: seq<string>): (r: seq<string>)
    requires AllKeyed(ns)
    ensures AllKeyed(r)
    ensures multiset(r) == multiset(ns)
  {
    if ns == [] then []
    else
      assert ns == [ns[0]] + ns[1..];
      Insert(ns[0], SortByDate(ns[1..]))
  }

  /** The sorted listing is in date order. */
  lemma {:induction false} SortByDateSorted(ns: seq<string>)
    requires AllKeyed(ns)
    ensures SortedByDate(SortByDate(ns))
  {
    if ns != [] {
      SortByDateSorted(ns[1..]);
      InsertSorted(ns[0], SortByDate(ns[1..]));
    }
  }

  // ---------------------------------------------------------------- obtener_archivos_diario

  /**
   * `obtener_archivos_diario(carpeta)` as written: the names that pass
   * `validar_nombre_archivo`, sorted by the date in the name. Python computes
   * every sort key before sorting, so one name with the right shape but no
   * such day (`31-02-2024.md`) makes the whole listing raise.
   */
  function ListJournalFiles(folder: Folder): (r: Result<seq<string>, ListingError>)
  {
    match folder
    case Absent => Err(Missing)
    case NotDir => Err(NotADirectory)
    case Dir(names) =>
      var valid := Filter(names, ValidFileName);
      if valid == [] then Ok([])
      else if !AllKeyed(valid) then Err(ReadFailed)
      else Ok(SortByDate(valid))
  }

  /** The listing fails on an existing folder exactly when some well-shaped name names no real day. */
  lemma ListJournalFilesFails(names: seq<string>)
    ensures ListJournalFiles(Dir(names)).Err? <==>
      exists n :: n in names && ValidFileName(n) && SortKey(n).None?
  {
    var valid := Filter(names, ValidFileName);
    if exists n :: n in names && ValidFileName(n) && SortKey(n).None? {
      var n :| n in names && ValidFileName(n) && SortKey(n).None?;
      assert n in valid;
    }
  }

  /** `31-02-2024.md` has the shape of a journal name... */
  lemma ImpossibleDayIsWellShaped()
    ensures ValidFileName("31-02-2024.md")
  {
    var n := "31-02-2024.md";
    assert n[10..] == ".md";
    assert FileNamePattern(n);
  }

  lemma ImpossibleDayStem()
    ensures ReplaceAll("31-02-2024.md", ".md", "") == "31-02-2024.md"[..10]
  {
    var n := "31-02-2024.md";
    ImpossibleDayIsWellShaped();
    StemOfValidName(n);
    assert n[13..] == [];
    assert n[..10] + n[13..] == n[..10];
  }

  lemma ImpossibleDayStemFields()
    ensures "31-02-2024.md"[..10] == "31" + "-" + "02" + "-" + "2024"
  {
  }

  lemma ImpossibleDayFields()
    ensures DayField("31") && DayValue("31") == 31
    ensures MonthField("02") && DigitsValue("02") == 2
    ensures forall y :: !ValidDate(Date(y, 2, 31))
  {
    assert "02"[..1] == "0" && "31"[..1] == "3";
    assert AllDigits("02") && AllDigits("31");
  }

  /** No 31 February is a date, whatever the year field holds. */
  lemma ThirtyFirstOfFebruary(f: string)
    requires |Split(f, '-')| == 3 && Split(f, '-')[0] == "31" && Split(f, '-')[1] == "02"
    ensures ParseDmy(f).None?
  {
    ImpossibleDayFields();
  }

  /** ...but `strptime` rejects it: February has no 31st. */
  lemma ImpossibleDayHasNoKey()
    ensures SortKey("31-02-2024.md").None?
  {
    ImpossibleDayStem();
    ImpossibleDayStemFields();
    SplitThree("31", "02", "2024", '-');
    ThirtyFirstOfFebruary("31" + "-" + "02" + "-" + "2024");
  }

  /** The as-written listing of a folder holding a 31 February and a real day raises. */
  lemma ImpossibleDayBreaksListing()
    ensures ListJournalFiles(Dir(["31-02-2024.md", "01-01-2024.md"])) == Err(ReadFailed)
  {
    ImpossibleDayIsWellShaped();
    ImpossibleDayHasNoKey();
    ListJournalFilesFails(["31-02-2024.md", "01-01-2024.md"]);
  }

  /** A name is listed when it has the right shape and names a real day. */
  predicate Dated(n: string) {
    DateFromFileName(n).Some?
  }

  lemma DatedIsKeyed(ns: seq<string>)
    requires forall i :: 0 <= i < |ns| ==> Dated(ns[i])
    ensures AllKeyed(ns)
  {
    forall i | 0 <= i < |ns| ensures SortKey(ns[i]).Some? {
      NewlineNameHasNoDate(ns[i]);
    }
  }

  /**
   * The listing as evidently intended: names whose date `extraer_fecha_de_nombre`
   * rejects are skipped, as that function's own warning says, instead of
   * failing the whole folder.
   */
  function ListDatedFiles(folder: Folder): (r: Result<seq<string>, ListingError>)
    ensures folder.Dir? ==> r.Ok?
    ensures folder == Absent ==> r == Err(Missing)
    ensures folder == NotDir ==> r == Err(NotADirectory)
  {
    match folder
    case Absent => Err(Missing)
    case NotDir => Err(NotADirectory)
    case Dir(names) =>
      var dated := Filter(names, Dated);
      DatedIsKeyed(dated);
      Ok(SortByDate(dated))
  }

  /** The corrected listing holds exactly the dated names of the folder, each once per occurrence, in date order. */
  lemma ListDatedFilesSound(names: seq<string>)
    ensures var r := ListDatedFiles(Dir(names)).value;
      && AllKeyed(r) && SortedByDate(r)
      && multiset(r) == multiset(Filter(names, Dated))
      && (forall n :: n in r <==> n in names && Dated(n))
  {
    var dated := Filter(names, Dated);
    var r := ListDatedFiles(Dir(names)).value;
    DatedIsKeyed(dated);
    SortByDateSorted(dated);
    forall n ensures n in r <==> n in dated {
      assert n in r <==> n in multiset(r);
      assert n in dated <==> n in multiset(dated);
    }
  }

  /** Both listings agree whenever the as-written one succeeds. */
  lemma ListingsAgree(names: seq<string>)
    requires ListJournalFiles(Dir(names)).Ok?
    ensures ListDatedFiles(Dir(names)) == ListJournalFiles(Dir(names))
  {
    var valid := Filter(names, ValidFileName);
    var dated := Filter(names, Dated);
    if valid != [] {
      FilterSame(names, ValidFileName, Dated);
    } else {
      FilterEmpty(names, ValidFileName, Dated);
    }
  }

  /** Two conditions that agree on every element of `xs` filter it alike. */
  lemma {:induction false} FilterSame<T(!new)>(xs: seq<T>, p: T -> bool, q: T -> bool)
    requires forall x :: x in Filter(xs, p) ==> q(x)
    requires forall x :: x in xs && q(x) ==> p(x)
    ensures Filter(xs, p) == Filter(xs, q)
  {
    if xs != [] {
      if p(xs[0]) {
        assert q(xs[0]);
      }
      FilterSame(xs[1..], p, q);
    }
  }

  lemma FilterEmpty<T(!new)>(xs: seq<T>, p: T -> bool, q: T -> bool)
    requires Filter(xs, p) == []
    requires forall x :: q(x) ==> p(x)
    ensures Filter(xs, q) == []
  {
  }

  // ---------------------------------------------------------------- obtener_fechas_procesadas

  /**
   * What one history item adds to the processed dates: its `fecha` when it is
   * a dict holding one, nothing when `'fecha' in item` is false, and a
   * TypeError (Err) when the test or the lookup raises: `in` on a number,
   * a boolean or None, indexing a string or a list by `'fecha'`, or an
   * unhashable date added to the set.
   */
  function ItemDate(item: Json): (r: Result<Option<Json>, ()>)
    ensures r == Ok(None) <==> (
      || (item.JObj? && "fecha" !in item.fields)
      || (item.JStr? && !Contains(item.s, "fecha"))
      || (item.JArr? && JStr("fecha") !in item.items))
    ensures r.Ok? && r.value.Some? <==> item.JObj? && "fecha" in item.fields && Hashable(item.fields["fecha"])
    ensures r.Ok? && r.value.Some? ==> r.value.value == item.fields["fecha"]
  {
    match item
    case JObj(m) =>
      if "fecha" !in m then Ok(None)
      else if Hashable(m["fecha"]) then Ok(Some(m["fecha"]))
      else Err(())
    case JStr(s) => if Contains(s, "fecha") then Err(()) else Ok(None)
    case JArr(xs) => if JStr("fecha") in xs then Err(()) else Ok(None)
    case _ => Err(())
  }

  /** The dates of the first `n` history items; None once one of them raises. */
  function DatesOf(history: seq<Json>): (r: Option<set<Json>>)
  {
    if history == [] then Some({})
    else
      match DatesOf(history[..|history| - 1])
      case None => None
      case Some(dates) =>
        match ItemDate(history[|history| - 1])
        case Err(_) => None
        case Ok(None) => Some(dates)
        case Ok(Some(d)) => Some(dates + {d})
  }

  /** The collected dates are exactly the `fecha` values of the dict items. */
  lemma {:induction false} DatesOfExact(history: seq<Json>)
    requires DatesOf(history).Some?
    ensures forall d :: d in DatesOf(history).value <==>
      exists i :: 0 <= i < |history| && history[i].JObj? && "fecha" in history[i].fields && history[i].fields["fecha"] == d
  {
    if history != [] {
      var init := history[..|history| - 1];
      var last := history[|history| - 1];
      DatesOfExact(init);
      forall d ensures d in DatesOf(history).value <==>
        exists i :: 0 <= i < |history| && history[i].JObj? && "fecha" in history[i].fields && history[i].fields["fecha"] == d
      {
        if exists i :: 0 <= i < |history| && history[i].JObj? && "fecha" in history[i].fields && history[i].fields["fecha"] == d {
          var i :| 0 <= i < |history| && history[i].JObj? && "fecha" in history[i].fields && history[i].fields["fecha"] == d;
          if i < |init| {
            assert init[i] == history[i];
          }
        }
        if d in DatesOf(init).value {
          var i :| 0 <= i < |init| && init[i].JObj? && "fecha" in init[i].fields && init[i].fields["fecha"] == d;
          assert history[i] == init[i];
        }
      }
    }
  }

  /** Every item raises or not independently of the others: a raise anywhere empties the result. */
  lemma {:induction false} DatesOfFails(history: seq<Json>)
    ensures DatesOf(history).None? <==> exists i :: 0 <= i < |history| && ItemDate(history[i]).Err?
  {
    if history != [] {
      var init := history[..|history| - 1];
      DatesOfFails(init);
      if exists i :: 0 <= i < |init| && ItemDate(init[i]).Err? {
        var i :| 0 <= i < |init| && ItemDate(init[i]).Err?;
        assert history[i] == init[i];
      }
      if exists i :: 0 <= i < |history| && ItemDate(history[i]).Err? {
        var i :| 0 <= i < |history| && ItemDate(history[i]).Err?;
        if i < |init| {
          assert init[i] == history[i];
        }
      }
    }
  }

  /**
   * `obtener_fechas_procesadas(ruta_json)`: the `fecha` of every history item
   * that has one. `loaded` is None when `cargar_historial_diario` raised; that
   * and every exception inside the loop give the empty set.
   */
  method ProcessedDates(loaded: Option<seq<Json>>) returns (dates: set<Json>)
    ensures loaded.None? ==> dates == {}
    ensures loaded.Some? ==> dates == (if DatesOf(loaded.value).Some? then DatesOf(loaded.value).value else {})
  {
    if loaded.None? {
      return {};
    }
    var history := loaded.value;
    dates := {};
    var k := 0;
    while k < |history|
      invariant 0 <= k <= |history|
      invariant DatesOf(history[..k]) == Some(dates)
    {
      assert history[..k + 1][..k] == history[..k];
      match ItemDate(history[k]) {
        case Err(_) =>
          DatesOfStaysNone(history, k + 1);
          assert history[..|history|] == history;
          return {};
        case Ok(None) =>
        case Ok(Some(d)) =>
          dates := dates + {d};
      }
      k := k + 1;
    }
    assert history[..|history|] == history;
  }

  /** Once a prefix raises, every longer prefix raises too. */
  lemma {:induction false} DatesOfStaysNone(history: seq<Json>, k: nat)
    requires k <= |history| && DatesOf(history[..k]).None?
    ensures DatesOf(history).None?
    decreases |history| - k
  {
    if k < |history| {
      assert history[..k + 1][..k] == history[..k];
      DatesOfStaysNone(history, k + 1);
    } else {
      assert history[..k] == history;
    }
  }

  // ---------------------------------------------------------------- obtener_archivos_pendientes

  /** `extraer_fecha_de_nombre(name)` as the value compared with the history's dates. */
  function NameDate(n: string): Json {
    match DateFromFileName(n)
    case None => JNull
    case Some(f) => JStr(f)
  }

  /** The files whose date is not among the processed ones, in their listed order. */
  function Unprocessed(files: seq<string>, processed: set<Json>): (r: seq<string>)
    ensures forall f :: f in r <==> f in files && NameDate(f) !in processed
  {
    Filter(files, (f: string) => NameDate(f) !in processed)
  }

  /** Filtering a date-ordered list keeps it date-ordered. */
  lemma {:induction false} FilterKeepsOrder(ns: seq<string>, p: string -> bool)
    requires AllKeyed(ns) && SortedByDate(ns)
    ensures AllKeyed(Filter(ns, p)) && SortedByDate(Filter(ns, p))
  {
    if ns != [] {
      var rest := Filter(ns[1..], p);
      FilterKeepsOrder(ns[1..], p);
      if p(ns[0]) {
        assert Filter(ns, p) == [ns[0]] + rest;
        forall i | 0 <= i < |rest| ensures DateLe(SortKey(ns[0]).value, SortKey(rest[i]).value) {
          assert rest[i] in rest;
          assert rest[i] in ns;
          HeadNoLater(ns, rest[i]);
        }
        SortedCons(ns[0], rest);
      } else {
        assert Filter(ns, p) == rest;
      }
    }
  }

  /** With no processed dates, which is what an unreadable history gives, every file is pending. */
  lemma {:induction false} NothingProcessedAllPending(files: seq<string>)
    ensures Unprocessed(files, {}) == files
  {
    if files != [] {
      NothingProcessedAllPending(files[1..]);
      assert Unprocessed(files, {}) == [files[0]] + Unprocessed(files[1..], {});
    }
  }

  /**
   * `obtener_archivos_pendientes(carpeta, ruta_json)`: the listed files whose
   * date the history does not hold. It lists with `obtener_archivos_diario`
   * as written, so its errors, the impossible day's among them, propagate.
   */
  method PendingFiles(folder: Folder, loaded: Option<seq<Json>>) returns (r: Result<seq<string>, ListingError>)
    ensures ListJournalFiles(folder).Err? ==> r == ListJournalFiles(folder)
    ensures ListJournalFiles(folder).Ok? ==> r.Ok?
    ensures r.Ok? ==> AllKeyed(r.value) && SortedByDate(r.value)
    ensures r.Ok? ==> forall f :: f in r.value <==>
      f in ListJournalFiles(folder).value
      && (loaded.Some? && DatesOf(loaded.value).Some? ==> NameDate(f) !in DatesOf(loaded.value).value)
    ensures r.Ok? ==> r.value == Unprocessed(ListJournalFiles(folder).value,
      if loaded.Some? && DatesOf(loaded.value).Some? then DatesOf(loaded.value).value else {})
  {
    var listed := ListJournalFiles(folder);
    if listed.Err? {
      return listed;
    }
    var processed := ProcessedDates(loaded);
    ListingsAgree(folder.names);
    ListDatedFilesSound(folder.names);
    FilterKeepsOrder(listed.value, (f: string) => NameDate(f) !in processed);
    r := Ok(Unprocessed(listed.value, processed));
  }

  /** A folder holding an impossible day has no pending files: the listing fails first. */
  lemma ImpossibleDayBlocksPending(names: seq<string>)
    requires "31-02-2024.md" in names
    ensures ListJournalFiles(Dir(names)).Err?
  {
    ImpossibleDayIsWellShaped();
    ImpossibleDayHasNoKey();
    ListJournalFilesFails(names);
  }
}
