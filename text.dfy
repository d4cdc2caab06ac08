/**
 * The handful of Python string operations the journal pipeline relies on:
 * `str.split()`, `str.split(sep)`, `str.strip()`, `str.lower()`,
 * `str.capitalize()`, the `in` substring test, `sep.join(...)` and `str(int)`.
 */
module Text {
  import opened Wrappers

  /** Python's whitespace set (`str.isspace()`), used by `split()`, `strip()` and the regex class `\s`. */
  predicate IsSpace(c: char) {
    var n := c as int;
    (9 <= n <= 13) || (28 <= n <= 32) || n == 0x85 || n == 0xA0 || n == 0x1680
    || (0x2000 <= n <= 0x200A) || n == 0x2028 || n == 0x2029 || n == 0x202F
    || n == 0x205F || n == 0x3000
  }

  predicate AllSpace(s: string) {
    forall i :: 0 <= i < |s| ==> IsSpace(s[i])
  }

  predicate NoSpace(s: string) {
    forall i :: 0 <= i < |s| ==> !IsSpace(s[i])
  }

  /** A string with no whitespace at either end, as `strip()` leaves it. */
  predicate Stripped(s: string) {
    s == [] || (!IsSpace(s[0]) && !IsSpace(s[|s| - 1]))
  }

  predicate IsDigit(c: char) {
    '0' <= c <= '9'
  }

  predicate AllDigits(s: string) {
    forall i :: 0 <= i < |s| ==> IsDigit(s[i])
  }

  // ---------------------------------------------------------------- split()

  /** Length of the run of non-whitespace characters that starts `s`. */
  function TokenLen(s: string): (n: nat)
    ensures n <= |s|
    ensures forall i :: 0 <= i < n ==> !IsSpace(s[i])
    ensures n < |s| ==> IsSpace(s[n])
  {
    if s == [] || IsSpace(s[0]) then 0 else 1 + TokenLen(s[1..])
  }

  /** `s.split()`: the maximal runs of non-whitespace characters, in order. */
  function Words(s: string): (ws: seq<string>)
    ensures forall k :: 0 <= k < |ws| ==> ws[k] != [] && NoSpace(ws[k])
    ensures AllSpace(s) <==> ws == []
    decreases |s|
  {
    if s == [] then []
    else if IsSpace(s[0]) then Words(s[1..])
    else
      var n := TokenLen(s);
      [s[..n]] + Words(s[n..])
  }

  // ---------------------------------------------------------------- strip()

  /** Length of the run of whitespace that starts `s`. */
  function LeadingSpace(s: string): (n: nat)
    ensures n <= |s|
    ensures forall i :: 0 <= i < n ==> IsSpace(s[i])
    ensures n < |s| ==> !IsSpace(s[n])
  {
    if s == [] || !IsSpace(s[0]) then 0 else 1 + LeadingSpace(s[1..])
  }

  /** Length of the run of whitespace that ends `s`. */
  function TrailingSpace(s: string): (n: nat)
    ensures n <= |s|
    ensures forall i :: |s| - n <= i < |s| ==> IsSpace(s[i])
    ensures n < |s| ==> !IsSpace(s[|s| - 1 - n])
  {
    if s == [] || !IsSpace(s[|s| - 1]) then 0 else 1 + TrailingSpace(s[..|s| - 1])
  }

  function StripLeft(s: string): (r: string)
    ensures |r| <= |s| && r == s[|s| - |r|..]
    ensures AllSpace(s[..|s| - |r|])
    ensures r == [] || !IsSpace(r[0])
  {
    s[LeadingSpace(s)..]
  }

  function StripRight(s: string): (r: string)
    ensures |r| <= |s| && r == s[..|r|]
    ensures AllSpace(s[|r|..])
    ensures r == [] || !IsSpace(r[|r| - 1])
  {
    s[..|s| - TrailingSpace(s)]
  }

  /** `s.strip()`: `s` without whitespace at either end. */
  function Strip(s: string): (r: string)
    ensures Stripped(r)
    ensures r == [] <==> AllSpace(s)
  {
    var l := StripLeft(s);
    var r := StripRight(l);
    assert r != [] ==> r[0] == l[0];
    assert l == [] ==> s[..|s| - |l|] == s;
    r
  }

  lemma LeadingSpacePadded(w: string, p: string)
    requires AllSpace(w) && (p == [] || !IsSpace(p[0]))
    ensures LeadingSpace(w + p) == |w|
  {
    if w != [] {
      assert (w + p)[1..] == w[1..] + p;
      LeadingSpacePadded(w[1..], p);
    } else {
      assert w + p == p;
    }
  }

  lemma TrailingSpacePadded(p: string, w: string)
    requires AllSpace(w) && (p == [] || !IsSpace(p[|p| - 1]))
    ensures TrailingSpace(p + w) == |w|
  {
    if w != [] {
      assert (p + w)[..|p + w| - 1] == p + w[..|w| - 1];
      TrailingSpacePadded(p, w[..|w| - 1]);
    } else {
      assert p + w == p;
    }
  }

  /** `strip()` returns a slice of its argument: the one starting at `k`. */
  lemma StripSlice(s: string) returns (k: nat)
    ensures k + |Strip(s)| <= |s| && Strip(s) == s[k..k + |Strip(s)|]
  {
    var l := StripLeft(s);
    k := |s| - |l|;
    assert Strip(s) == StripRight(l) == l[..|Strip(s)|];
  }

  lemma StripLeftPadded(w: string, p: string)
    requires AllSpace(w) && (p == [] || !IsSpace(p[0]))
    ensures StripLeft(w + p) == p
  {
    LeadingSpacePadded(w, p);
  }

  lemma StripRightPadded(p: string, w: string)
    requires AllSpace(w) && (p == [] || !IsSpace(p[|p| - 1]))
    ensures StripRight(p + w) == p
  {
    TrailingSpacePadded(p, w);
  }

  /** An already stripped string is its own `strip()`. */
  lemma StripStripped(p: string)
    requires Stripped(p)
    ensures Strip(p) == p
  {
    assert [] + p == p;
    StripLeftPadded([], p);
    assert p + [] == p;
    StripRightPadded(p, []);
  }

  /** Stripping undoes any whitespace padding of an already stripped string. */
  lemma {:induction false} StripPadded(w1: string, p: string, w2: string)
    requires AllSpace(w1) && AllSpace(w2) && Stripped(p)
    ensures Strip(w1 + p + w2) == p
  {
    if p == [] {
      assert w1 + p + w2 == w1 + w2;
      assert AllSpace(w1 + w2) by {
        forall i | 0 <= i < |w1 + w2| ensures IsSpace((w1 + w2)[i]) {
          if i < |w1| { assert (w1 + w2)[i] == w1[i]; } else { assert (w1 + w2)[i] == w2[i - |w1|]; }
        }
      }
    } else {
      assert w1 + p + w2 == w1 + (p + w2);
      assert (p + w2)[0] == p[0];
      StripLeftPadded(w1, p + w2);
      StripRightPadded(p, w2);
    }
  }

  /** The non-whitespace characters of `s`, in order. */
  function NonSpace(s: string): (r: string)
    ensures |r| <= |s|
    ensures forall k :: 0 <= k < |r| ==> !IsSpace(r[k])
  {
    if s == [] then [] else (if IsSpace(s[0]) then [] else [s[0]]) + NonSpace(s[1..])
  }

  lemma {:induction false} NonSpaceAppend(a: string, b: string)
    ensures NonSpace(a + b) == NonSpace(a) + NonSpace(b)
  {
    if a == [] {
      assert a + b == b;
    } else {
      assert (a + b)[1..] == a[1..] + b;
      NonSpaceAppend(a[1..], b);
    }
  }

  lemma {:induction false} NonSpaceAllSpace(s: string)
    requires AllSpace(s)
    ensures NonSpace(s) == []
  {
    if s != [] {
      assert AllSpace(s[1..]);
      NonSpaceAllSpace(s[1..]);
    }
  }

  /** Stripping removes whitespace only. */
  lemma NonSpaceStrip(s: string)
    ensures NonSpace(Strip(s)) == NonSpace(s)
  {
    var l := StripLeft(s);
    var lead := s[..|s| - |l|];
    assert s == lead + l;
    NonSpaceAppend(lead, l);
    NonSpaceAllSpace(lead);
    var r := StripRight(l);
    var trail := l[|r|..];
    assert l == r + trail;
    NonSpaceAppend(r, trail);
    NonSpaceAllSpace(trail);
  }

  // ---------------------------------------------------------------- lower(), capitalize()

  /** `c.lower()` for ASCII and Latin-1 letters. */
  function LowerChar(c: char): char {
    var n := c as int;
    if 65 <= n <= 90 || (0xC0 <= n <= 0xDE && n != 0xD7) then (n + 32) as char else c
  }

  /**
   * The title case of `c`, which `capitalize()` gives the first character, for
   * ASCII and Latin-1: `µ` becomes the Greek capital mu and `ß` becomes `Ss`.
   */
  function TitleChar(c: char): (r: string)
    ensures |r| == if c as int == 0xDF then 2 else 1
  {
    var n := c as int;
    if 97 <= n <= 122 || (0xE0 <= n <= 0xFE && n != 0xF7) then [(n - 32) as char]
    else if n == 0xFF then [0x178 as char]
    else if n == 0xB5 then [0x39C as char]
    else if n == 0xDF then "Ss"
    else [c]
  }

  function Lower(s: string): (r: string)
    ensures |r| == |s|
    ensures forall i :: 0 <= i < |s| ==> r[i] == LowerChar(s[i])
  {
    seq(|s|, i requires 0 <= i < |s| => LowerChar(s[i]))
  }

  /** `s.capitalize()`: the first character title-cased, the rest lower case. */
  function Capitalize(s: string): (r: string)
    ensures s == [] <==> r == []
    ensures s != [] ==> |r| == |s| + |TitleChar(s[0])| - 1
    ensures s != [] ==> r[|r| - (|s| - 1)..] == Lower(s[1..])
  {
    if s == [] then [] else TitleChar(s[0]) + Lower(s[1..])
  }

  lemma LowerCharIdempotent(c: char)
    ensures LowerChar(LowerChar(c)) == LowerChar(c)
  {
  }

  /** `lower()` is idempotent. */
  lemma LowerIdempotent(s: string)
    ensures Lower(Lower(s)) == Lower(s)
  {
    forall i | 0 <= i < |s| ensures Lower(Lower(s))[i] == Lower(s)[i] {
      LowerCharIdempotent(s[i]);
    }
  }

  lemma TitleCharOfLower(c: char)
    ensures TitleChar(LowerChar(c)) == TitleChar(c)
  {
  }

  /** `capitalize()` reads only the lower case of its argument: `s.lower().capitalize() == s.capitalize()`. */
  lemma CapitalizeIgnoresCase(s: string)
    ensures Capitalize(Lower(s)) == Capitalize(s)
  {
    if s != [] {
      TitleCharOfLower(s[0]);
      assert Lower(s)[1..] == Lower(s[1..]);
      LowerIdempotent(s[1..]);
    }
  }

  lemma TitleCharFixed(c: char)
    ensures TitleChar(TitleChar(c)[0]) == [TitleChar(c)[0]]
    ensures forall i :: 1 <= i < |TitleChar(c)| ==> LowerChar(TitleChar(c)[i]) == TitleChar(c)[i]
  {
  }

  /** `capitalize()` is idempotent, `ß` included. */
  lemma CapitalizeIdempotent(s: string)
    ensures Capitalize(Capitalize(s)) == Capitalize(s)
  {
    if s != [] {
      var t := TitleChar(s[0]);
      var r := Capitalize(s);
      TitleCharFixed(s[0]);
      LowerIdempotent(s[1..]);
      assert r[0] == t[0];
      assert r[1..] == t[1..] + Lower(s[1..]);
      assert Lower(r[1..]) == r[1..];
      assert r == [t[0]] + r[1..];
    }
  }

  // ---------------------------------------------------------------- substring search

  /** Python's `sub in s` for strings. */
  predicate Contains(s: string, sub: string) {
    exists i :: 0 <= i <= |s| && sub <= s[i..]
  }

  /** The first index at or after `from` where `sub` occurs, as `str.find` would report it. */
  function IndexOf(s: string, sub: string, from: nat): (r: Option<nat>)
    ensures r.Some? ==> from <= r.value <= |s| && sub <= s[r.value..]
    ensures r.Some? ==> forall j :: from <= j < r.value ==> !(sub <= s[j..])
    ensures r.None? ==> forall j :: from <= j <= |s| ==> !(sub <= s[j..])
    decreases |s| - from
  {
    if from > |s| then None
    else if sub <= s[from..] then Some(from)
    else IndexOf(s, sub, from + 1)
  }

  lemma {:induction false} IndexOfIs(s: string, sub: string, from: nat, i: nat)
    requires from <= i <= |s| && sub <= s[i..]
    requires forall j :: from <= j < i ==> !(sub <= s[j..])
    ensures IndexOf(s, sub, from) == Some(i)
    decreases i - from
  {
    if from < i {
      IndexOfIs(s, sub, from + 1, i);
    }
  }

  /** The first index of `c` in `s`. */
  function FirstIndexOfChar(s: string, c: char): (r: Option<nat>)
    ensures r.Some? ==> r.value < |s| && s[r.value] == c && c !in s[..r.value]
    ensures r.Some? ==> forall k :: 0 <= k < r.value ==> s[k] != c
    ensures r.None? <==> c !in s
  {
    if s == [] then None
    else if s[0] == c then Some(0)
    else
      var r := FirstIndexOfChar(s[1..], c);
      assert s == [s[0]] + s[1..];
      if r.Some? then Some(r.value + 1) else None
  }

  /** The last index of `c` in `s`. */
  function LastIndexOfChar(s: string, c: char): (r: Option<nat>)
    ensures r.Some? ==> r.value < |s| && s[r.value] == c && c !in s[r.value + 1..]
    ensures r.Some? ==> forall k :: r.value < k < |s| ==> s[k] != c
    ensures r.None? <==> c !in s
  {
    if s == [] then None
    else if s[|s| - 1] == c then Some(|s| - 1)
    else
      assert s == s[..|s| - 1] + [s[|s| - 1]];
      LastIndexOfChar(s[..|s| - 1], c)
  }

  lemma FirstIndexIs(s: string, c: char, i: nat)
    requires i < |s| && s[i] == c && c !in s[..i]
    ensures FirstIndexOfChar(s, c) == Some(i)
  {
    assert s[i] in s;
    forall k | 0 <= k < i ensures s[k] != c {
      assert s[..i][k] == s[k];
    }
  }

  lemma LastIndexIs(s: string, c: char, j: nat)
    requires j < |s| && s[j] == c && c !in s[j + 1..]
    ensures LastIndexOfChar(s, c) == Some(j)
  {
    assert s[j] in s;
    forall k | j < k < |s| ensures s[k] != c {
      assert s[j + 1..][k - j - 1] == s[k];
    }
  }

  // ---------------------------------------------------------------- split(sep), join

  /** `s.split(c)` for a one-character separator: every occurrence cuts, empty parts are kept. */
  function Split(s: string, c: char): (parts: seq<string>)
    ensures |parts| >= 1
    ensures forall k :: 0 <= k < |parts| ==> c !in parts[k]
  {
    if s == [] then [[]]
    else if s[0] == c then [[]] + Split(s[1..], c)
    else
      var rest := Split(s[1..], c);
      [[s[0]] + rest[0]] + rest[1..]
  }

  /** Splitting at the first separator peels off the text before it. */
  lemma {:induction false} SplitAtFirst(a: string, c: char, b: string)
    requires c !in a
    ensures Split(a + [c] + b, c) == [a] + Split(b, c)
  {
    if a == [] {
      assert a + [c] + b == [c] + b;
      assert ([c] + b)[1..] == b;
    } else {
      assert (a + [c] + b)[1..] == a[1..] + [c] + b;
      SplitAtFirst(a[1..], c, b);
      assert [a[0]] + a[1..] == a;
    }
  }

  lemma {:induction false} SplitNoSeparator(a: string, c: char)
    requires c !in a
    ensures Split(a, c) == [a]
  {
    if a != [] {
      SplitNoSeparator(a[1..], c);
      assert [a[0]] + a[1..] == a;
    }
  }

  /** A string cut at two separators splits into its three fields. */
  lemma SplitThree(a: string, b: string, c: string, sep: char)
    requires sep !in a && sep !in b && sep !in c
    ensures Split(a + [sep] + b + [sep] + c, sep) == [a, b, c]
  {
    assert a + [sep] + b + [sep] + c == a + [sep] + (b + [sep] + c);
    SplitAtFirst(a, sep, b + [sep] + c);
    SplitAtFirst(b, sep, c);
    SplitNoSeparator(c, sep);
  }

  /** `s.replace(pat, rep)`: every non-overlapping occurrence, scanning left to right. */
  function ReplaceAll(s: string, pat: string, rep: string): string
    requires pat != []
    decreases |s|
  {
    if |s| < |pat| then s
    else if pat <= s then rep + ReplaceAll(s[|pat|..], pat, rep)
    else [s[0]] + ReplaceAll(s[1..], pat, rep)
  }

  /** Text that cannot start an occurrence passes through `replace` unchanged. */
  lemma {:induction false} ReplaceAllSkips(a: string, b: string, pat: string, rep: string)
    requires pat != [] && pat[0] !in a
    ensures ReplaceAll(a + b, pat, rep) == a + ReplaceAll(b, pat, rep)
    decreases |a|
  {
    if a != [] {
      var s := a + b;
      if |s| < |pat| {
        // too short for any occurrence, so both sides are the text itself
        assert ReplaceAll(b, pat, rep) == b;
      } else {
        assert s[0] == a[0] && !(pat <= s);
        assert s[1..] == a[1..] + b;
        ReplaceAllSkips(a[1..], b, pat, rep);
      }
    } else {
      assert a + b == b;
    }
  }

  /** `sep.join(xs)`. */
  function Join(sep: string, xs: seq<string>): string {
    if |xs| == 0 then ""
    else if |xs| == 1 then xs[0]
    else xs[0] + sep + Join(sep, xs[1..])
  }

  /** Joining two non-empty lists is joining each and putting one separator between. */
  lemma {:induction false} JoinAppend(sep: string, xs: seq<string>, ys: seq<string>)
    requires xs != [] && ys != []
    ensures Join(sep, xs + ys) == Join(sep, xs) + sep + Join(sep, ys)
    decreases |xs|
  {
    if |xs| == 1 {
      assert (xs + ys)[1..] == ys;
    } else {
      assert (xs + ys)[1..] == xs[1..] + ys;
      JoinAppend(sep, xs[1..], ys);
    }
  }

  // ---------------------------------------------------------------- str(int)

  function DigitChar(d: nat): (c: char)
    requires d < 10
    ensures IsDigit(c)
  {
    (48 + d) as char
  }

  /** `str(n)` for a natural number: decimal digits, no leading zero. */
  function NatToString(n: nat): (r: string)
    ensures 1 <= |r| && AllDigits(r)
    ensures (n < 10) <==> |r| == 1
    decreases n
  {
    if n < 10 then [DigitChar(n)] else NatToString(n / 10) + [DigitChar(n % 10)]
  }

  /** `str(i)` for any integer. */
  function IntToString(i: int): string {
    if i < 0 then "-" + NatToString(-i) else NatToString(i)
  }

  /** Different numbers print differently. */
  lemma {:induction false} NatToStringInjective(a: nat, b: nat)
    requires NatToString(a) == NatToString(b)
    ensures a == b
    decreases a
  {
    if a >= 10 && b >= 10 {
      var sa, sb := NatToString(a), NatToString(b);
      assert sa[..|sa| - 1] == NatToString(a / 10);
      assert sb[..|sb| - 1] == NatToString(b / 10);
      NatToStringInjective(a / 10, b / 10);
      assert DigitChar(a % 10) == sa[|sa| - 1] == sb[|sb| - 1] == DigitChar(b % 10);
    }
  }

  lemma IntToStringInjective(a: int, b: int)
    requires IntToString(a) == IntToString(b)
    ensures a == b
  {
    var sa, sb := IntToString(a), IntToString(b);
    assert sa[0] == '-' <==> a < 0;
    assert sb[0] == '-' <==> b < 0;
    if a < 0 {
      assert sa[1..] == NatToString(-a) && sb[1..] == NatToString(-b);
      NatToStringInjective(-a, -b);
    } else {
      NatToStringInjective(a, b);
    }
  }

  /** The value of a string of ASCII digits. */
  function DigitsValue(s: string): (n: nat)
    requires AllDigits(s)
  {
    if s == [] then 0 else DigitsValue(s[..|s| - 1]) * 10 + (s[|s| - 1] as int - 48)
  }
}
