/**
 * Calendar dates as Python's `datetime.date` holds them, the two `strptime`
 * formats the journal uses (`%Y-%m-%d` and `%d-%m-%Y`), `isoformat()`,
 * `weekday()` and stepping one day back.
 */
module Calendar {
  import opened Wrappers
  import opened Text

  datatype Date = Date(year: int, month: int, day: int)

  predicate IsLeap(y: int) {
    y % 4 == 0 && (y % 100 != 0 || y % 400 == 0)
  }

  function DaysInMonth(y: int, m: int): (n: int)
    requires 1 <= m <= 12
    ensures 28 <= n <= 31
    ensures m == 2 ==> (n == 29 <==> IsLeap(y))
  {
    if m == 2 then (if IsLeap(y) then 29 else 28)
    else if m == 4 || m == 6 || m == 9 || m == 11 then 30
    else 31
  }

  /** A day `datetime.date` accepts: years 1 to 9999 and the real month lengths. */
  predicate ValidDate(d: Date) {
    1 <= d.year <= 9999 && 1 <= d.month <= 12 && 1 <= d.day <= DaysInMonth(d.year, d.month)
  }

  /** Chronological order of days. */
  predicate DateLe(a: Date, b: Date) {
    a.year < b.year || (a.year == b.year && (a.month < b.month || (a.month == b.month && a.day <= b.day)))
  }

  // ---------------------------------------------------------------- strptime fields

  /**
   * `%Y`: exactly four ASCII digits. strptime's `\d\d\d\d` also takes other
   * Unicode decimal digits; those are not modelled.
   */
  predicate YearField(f: string) {
    |f| == 4 && AllDigits(f)
  }

  /**
   * `%m` followed by a separator: strptime's alternatives `1[0-2]|0[1-9]|[1-9]`
   * accept exactly the one- or two-digit spellings of 1 to 12.
   */
  predicate MonthField(f: string) {
    1 <= |f| <= 2 && AllDigits(f) && 1 <= DigitsValue(f) <= 12
  }

  /**
   * `%d`: strptime's alternatives `3[01]|[12]\d|0[1-9]|[1-9]| [1-9]` accept the
   * one- or two-digit spellings of 1 to 31 and a space followed by 1 to 9.
   * The `\d` of `[12]\d` also takes other Unicode decimal digits; only ASCII
   * ones are modelled.
   */
  predicate DayField(f: string) {
    (1 <= |f| <= 2 && AllDigits(f) && 1 <= DigitsValue(f) <= 31)
    || (|f| == 2 && f[0] == ' ' && '1' <= f[1] <= '9')
  }

  function DayValue(f: string): int
    requires DayField(f)
  {
    if f[0] == ' ' then f[1] as int - 48 else DigitsValue(f)
  }

  /** The date a field triple names, if it is a real day. */
  function MakeDate(y: int, m: int, d: int): (r: Option<Date>)
    ensures r.Some? <==> ValidDate(Date(y, m, d))
    ensures r.Some? ==> r.value == Date(y, m, d)
  {
    if ValidDate(Date(y, m, d)) then Some(Date(y, m, d)) else None
  }

  /**
   * `datetime.strptime(s, "%Y-%m-%d").date()` over ASCII digits; None where
   * Python raises ValueError, and also on a year or day spelled with other
   * Unicode decimal digits, which Python accepts.
   */
  function ParseIso(s: string): (r: Option<Date>)
    ensures r.Some? ==> ValidDate(r.value)
  {
    var p := Split(s, '-');
    if |p| == 3 && YearField(p[0]) && MonthField(p[1]) && DayField(p[2]) then
      MakeDate(DigitsValue(p[0]), DigitsValue(p[1]), DayValue(p[2]))
    else None
  }

  /**
   * `datetime.strptime(s, "%d-%m-%Y").date()` over ASCII digits; None where
   * Python raises ValueError, and also on a day or year spelled with other
   * Unicode decimal digits, which Python accepts.
   */
  function ParseDmy(s: string): (r: Option<Date>)
    ensures r.Some? ==> ValidDate(r.value)
  {
    var p := Split(s, '-');
    if |p| == 3 && DayField(p[0]) && MonthField(p[1]) && YearField(p[2]) then
      MakeDate(DigitsValue(p[2]), DigitsValue(p[1]), DayValue(p[0]))
    else None
  }

  /** Try `%Y-%m-%d` first and fall back to `%d-%m-%Y`, as the migration and the statistics do. */
  function ParseEither(s: string): (r: Option<Date>)
    ensures r.Some? ==> ValidDate(r.value)
    ensures ParseIso(s).Some? ==> r == ParseIso(s)
    ensures ParseIso(s).None? ==> r == ParseDmy(s)
  {
    var iso := ParseIso(s);
    if iso.Some? then iso else ParseDmy(s)
  }

  // ---------------------------------------------------------------- formatting

  /** `n` in decimal, left-padded with zeros to `w` characters. */
  function PadNat(n: nat, w: nat): (r: string)
    ensures AllDigits(r) && |r| >= w
    ensures n < 10 && w == 2 ==> |r| == 2
    ensures 10 <= n < 100 && w == 2 ==> |r| == 2
    ensures n < 10000 && w == 4 ==> |r| == 4
    ensures DigitsValue(r) == n
  {
    var s := NatToString(n);
    var z := Zeros(w - |s|);
    DigitsOfNat(n);
    LeadingZeros(w - |s|, s);
    assert AllDigits(z + s) by {
      forall i | 0 <= i < |z + s| ensures IsDigit((z + s)[i]) {
        if i < |z| { assert (z + s)[i] == z[i]; } else { assert (z + s)[i] == s[i - |z|]; }
      }
    }
    z + s
  }

  function Zeros(k: int): (r: string)
    ensures |r| == (if k < 0 then 0 else k) && AllDigits(r)
    ensures forall i :: 0 <= i < |r| ==> r[i] == '0'
    decreases k
  {
    if k <= 0 then [] else ['0'] + Zeros(k - 1)
  }

  lemma {:induction false} DigitsOfNat(n: nat)
    ensures DigitsValue(NatToString(n)) == n
    ensures n < 10 ==> |NatToString(n)| == 1
    ensures 10 <= n < 100 ==> |NatToString(n)| == 2
    ensures 100 <= n < 1000 ==> |NatToString(n)| == 3
    ensures 1000 <= n < 10000 ==> |NatToString(n)| == 4
    decreases n
  {
    if n >= 10 {
      var s := NatToString(n);
      assert s[..|s| - 1] == NatToString(n / 10);
      DigitsOfNat(n / 10);
    }
  }

  lemma {:induction false} LeadingZeros(k: int, s: string)
    requires AllDigits(s)
    ensures DigitsValue(Zeros(k) + s) == DigitsValue(s)
    decreases |s|
  {
    if s == [] {
      assert Zeros(k) + s == Zeros(k);
      ZerosValue(k);
    } else {
      var t := Zeros(k) + s;
      assert t[..|t| - 1] == Zeros(k) + s[..|s| - 1];
      LeadingZeros(k, s[..|s| - 1]);
    }
  }

  lemma {:induction false} ZerosValue(k: int)
    ensures DigitsValue(Zeros(k)) == 0
    decreases k
  {
    if k > 0 {
      var z := Zeros(k);
      assert z[..|z| - 1] == Zeros(k - 1) by {
        assert Zeros(k - 1) + ['0'] == z;
      }
      ZerosValue(k - 1);
    }
  }

  /** `date.isoformat()`: `YYYY-MM-DD` with zero padding. */
  function IsoFormat(d: Date): string
    requires ValidDate(d)
  {
    PadNat(d.year, 4) + "-" + PadNat(d.month, 2) + "-" + PadNat(d.day, 2)
  }

  /** The `dd-mm-yyyy` spelling of a day that the journal files are named by (year padded to four digits). */
  function DmyFormat(d: Date): string
    requires ValidDate(d)
  {
    PadNat(d.day, 2) + "-" + PadNat(d.month, 2) + "-" + PadNat(d.year, 4)
  }

  lemma NoDash(s: string)
    requires AllDigits(s)
    ensures '-' !in s
  {
    forall i | 0 <= i < |s| ensures s[i] != '-' {
      assert IsDigit(s[i]);
    }
  }

  /** Parsing the ISO form of a date gives the date back. */
  lemma ParseIsoFormat(d: Date)
    requires ValidDate(d)
    ensures ParseIso(IsoFormat(d)) == Some(d)
  {
    var y, m, dd := PadNat(d.year, 4), PadNat(d.month, 2), PadNat(d.day, 2);
    NoDash(y); NoDash(m); NoDash(dd);
    SplitThree(y, m, dd, '-');
    assert dd[0] != ' ' by { assert IsDigit(dd[0]); }
  }

  /** Parsing the day-month-year form of a date gives the date back. */
  lemma ParseDmyFormat(d: Date)
    requires ValidDate(d)
    ensures ParseDmy(DmyFormat(d)) == Some(d)
  {
    var y, m, dd := PadNat(d.year, 4), PadNat(d.month, 2), PadNat(d.day, 2);
    NoDash(y); NoDash(m); NoDash(dd);
    SplitThree(dd, m, y, '-');
    assert dd[0] != ' ' by { assert IsDigit(dd[0]); }
  }

  // ---------------------------------------------------------------- ordinals and weekdays

  function YearLength(y: int): int {
    if IsLeap(y) then 366 else 365
  }

  /** Days in the years before `y`, counting from 1 January of year 1. */
  function DaysBeforeYear(y: int): nat
    requires y >= 1
    decreases y
  {
    if y == 1 then 0 else DaysBeforeYear(y - 1) + YearLength(y - 1)
  }

  function DaysBeforeMonth(y: int, m: int): nat
    requires 1 <= m <= 12
    decreases m
  {
    if m == 1 then 0 else DaysBeforeMonth(y, m - 1) + DaysInMonth(y, m - 1)
  }

  /** `date.toordinal()`: 1 January of year 1 is day 1. */
  function Ordinal(d: Date): int
    requires ValidDate(d)
  {
    DaysBeforeYear(d.year) + DaysBeforeMonth(d.year, d.month) + d.day
  }

  /** `date.weekday()`: Monday is 0, Sunday is 6. */
  function Weekday(d: Date): (w: int)
    requires ValidDate(d)
    ensures 0 <= w < 7
  {
    (Ordinal(d) + 6) % 7
  }

  lemma MonthsFillYear(y: int)
    ensures DaysBeforeMonth(y, 12) + 31 == YearLength(y)
  {
    assert DaysBeforeMonth(y, 3) == 31 + DaysInMonth(y, 2);
    assert DaysBeforeMonth(y, 6) == DaysBeforeMonth(y, 3) + 31 + 30 + 31;
    assert DaysBeforeMonth(y, 9) == DaysBeforeMonth(y, 6) + 30 + 31 + 31;
    assert DaysBeforeMonth(y, 12) == DaysBeforeMonth(y, 9) + 30 + 31 + 30;
  }

  /** `d - timedelta(days=1)`. */
  function PrevDay(d: Date): (r: Date)
    requires ValidDate(d) && d != Date(1, 1, 1)
    ensures ValidDate(r)
    ensures Ordinal(r) == Ordinal(d) - 1
  {
    if d.day > 1 then Date(d.year, d.month, d.day - 1)
    else if d.month > 1 then
      PrevMonthEnd(d);
      Date(d.year, d.month - 1, DaysInMonth(d.year, d.month - 1))
    else
      PrevYearEnd(d);
      Date(d.year - 1, 12, 31)
  }

  /** The day before the first of a month other than January is the previous month's last day. */
  lemma PrevMonthEnd(d: Date)
    requires ValidDate(d) && d.day == 1 && d.month > 1
    ensures var r := Date(d.year, d.month - 1, DaysInMonth(d.year, d.month - 1));
      ValidDate(r) && Ordinal(r) == Ordinal(d) - 1
  {
  }

  /** The day before 1 January is 31 December of the previous year. */
  lemma PrevYearEnd(d: Date)
    requires ValidDate(d) && d.day == 1 && d.month == 1 && d.year > 1
    ensures ValidDate(Date(d.year - 1, 12, 31)) && Ordinal(Date(d.year - 1, 12, 31)) == Ordinal(d) - 1
  {
    MonthsFillYear(d.year - 1);
  }

  lemma {:induction false} OrdinalPositive(d: Date)
    requires ValidDate(d)
    ensures Ordinal(d) >= 1
    ensures Ordinal(d) == 1 <==> d == Date(1, 1, 1)
  {
    if d.year > 1 {
      assert DaysBeforeYear(d.year) >= YearLength(d.year - 1);
    } else if d.month > 1 {
      assert DaysBeforeMonth(d.year, d.month) >= DaysInMonth(d.year, d.month - 1);
    }
  }

  /** `d - timedelta(days=n)`, None where Python raises OverflowError (before 1 January of year 1). */
  function DaysBack(d: Date, n: nat): (r: Option<Date>)
    requires ValidDate(d)
    ensures r.Some? ==> ValidDate(r.value)
    decreases n
  {
    if n == 0 then Some(d)
    else if d == Date(1, 1, 1) then None
    else DaysBack(PrevDay(d), n - 1)
  }

  /** Going back `n` days fails exactly when it would pass 1 January of year 1. */
  lemma {:induction false} DaysBackDefined(d: Date, n: nat)
    requires ValidDate(d)
    ensures DaysBack(d, n).Some? <==> n < Ordinal(d)
    decreases n
  {
    OrdinalPositive(d);
    if n > 0 && d != Date(1, 1, 1) {
      var p := PrevDay(d);
      DaysBackDefined(p, n - 1);
      assert DaysBack(d, n) == DaysBack(p, n - 1);
      assert Ordinal(p) == Ordinal(d) - 1;
    }
  }

  /** Going back `n` days lands `n` ordinals earlier. */
  lemma {:induction false} DaysBackOrdinal(d: Date, n: nat)
    requires ValidDate(d)
    ensures var r := DaysBack(d, n); r.Some? ==> Ordinal(r.value) == Ordinal(d) - n
    decreases n
  {
    if n > 0 && d != Date(1, 1, 1) {
      DaysBackOrdinal(PrevDay(d), n - 1);
    }
  }

  /** Stepping back a day moves the weekday back by one. */
  lemma PrevDayWeekday(d: Date)
    requires ValidDate(d) && d != Date(1, 1, 1)
    ensures Weekday(PrevDay(d)) == (Weekday(d) + 6) % 7
  {
    var o := Ordinal(d);
    assert Ordinal(PrevDay(d)) == o - 1;
    WeekStepBack(o);
  }

  lemma WeekStepBack(o: int)
    ensures (o - 1 + 6) % 7 == ((o + 6) % 7 + 6) % 7
  {
  }
}
