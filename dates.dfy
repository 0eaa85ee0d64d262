/**
 * Calendar dates and the three numeric invoice date formats
 * (`%m-%d-%y`, `%m/%d/%Y`, `%m-%d-%Y`) as Python's `datetime.strptime`
 * reads them, plus the two renderings the pipeline writes
 * (`%m/%d/%Y` for COSTDATE and ISO `YYYY-MM-DD` from `date()`).
 */
module Dates {
  import opened Base

  datatype Date = Date(year: int, month: int, day: int)

  predicate IsLeap(y: int) {
    y % 4 == 0 && (y % 100 != 0 || y % 400 == 0)
  }

  /** Days of January to December in a common year. */
  const MonthLengths: seq<int> := [31, 28, 31, 30, 31, 30, 31, 31, 30, 31, 30, 31]

  function DaysInMonth(y: int, m: int): int
    requires 1 <= m <= 12
  {
    if m == 2 && IsLeap(y) then 29 else MonthLengths[m - 1]
  }

  /** A date `datetime` accepts: years 1 to 9999 and a day that exists in its month. */
  predicate Valid(d: Date) {
    1 <= d.year <= 9999 && 1 <= d.month <= 12 && 1 <= d.day <= DaysInMonth(d.year, d.month)
  }

  /** The accepted invoice date formats, in the order they are tried. */
  datatype DateFormat =
    | MdyShort   // %m-%d-%y
    | MdySlash   // %m/%d/%Y
    | MdyLong    // %m-%d-%Y

  const DateFormats: seq<DateFormat> := [MdyShort, MdySlash, MdyLong]

  function Separator(f: DateFormat): char {
    if f.MdySlash? then '/' else '-'
  }

  function DigitValue(c: char): int { c as int - '0' as int }

  /** strptime's `%m`: `1[0-2]|0[1-9]|[1-9]`. */
  function MonthField(t: string): (r: Option<int>)
    ensures r.Some? ==> 1 <= r.value <= 12
  {
    if |t| == 2 && t[0] == '1' && '0' <= t[1] <= '2' then Some(10 + DigitValue(t[1]))
    else if |t| == 2 && t[0] == '0' && '1' <= t[1] <= '9' then Some(DigitValue(t[1]))
    else if |t| == 1 && '1' <= t[0] <= '9' then Some(DigitValue(t[0]))
    else None
  }

  /** strptime's `%d`: `3[01]|[12]\d|0[1-9]|[1-9]| [1-9]` (the space-padded form included). */
  function DayField(t: string): (r: Option<int>)
    ensures r.Some? ==> 1 <= r.value <= 31
  {
    if |t| == 2 && t[0] == '3' && '0' <= t[1] <= '1' then Some(30 + DigitValue(t[1]))
    else if |t| == 2 && '1' <= t[0] <= '2' && IsDigit(t[1]) then Some(10 * DigitValue(t[0]) + DigitValue(t[1]))
    else if |t| == 2 && (t[0] == '0' || t[0] == ' ') && '1' <= t[1] <= '9' then Some(DigitValue(t[1]))
    else if |t| == 1 && '1' <= t[0] <= '9' then Some(DigitValue(t[0]))
    else None
  }

  /** strptime's `%y` (`\d\d`, 69-99 in the 1900s, 00-68 in the 2000s) or `%Y` (`\d\d\d\d`). */
  function YearField(t: string, f: DateFormat): (r: Option<int>)
    ensures r.Some? && f.MdyShort? ==> |t| == 2 && 1969 <= r.value <= 2068
    ensures r.Some? && !f.MdyShort? ==> |t| == 4 && 0 <= r.value <= 9999
    ensures r.Some? ==> AllDigits(t)
  {
    if !AllDigits(t) then None
    else if f.MdyShort? then
      if |t| == 2 then
        var v := 10 * DigitValue(t[0]) + DigitValue(t[1]);
        Some(if v <= 68 then 2000 + v else 1900 + v)
      else None
    else if |t| == 4 then
      Some(1000 * DigitValue(t[0]) + 100 * DigitValue(t[1]) + 10 * DigitValue(t[2]) + DigitValue(t[3]))
    else None
  }

  /** Splits `s` at its first `sep` into the text before and the text after it. */
  function Cut(s: string, sep: char): (r: Option<(string, string)>)
    ensures r.Some? ==> s == r.value.0 + [sep] + r.value.1 && sep !in r.value.0
    ensures r.None? <==> sep !in s
  {
    var i := IndexOf(s, sep);
    if i < 0 then None
    else
      assert s == s[..i] + [s[i]] + s[i + 1..];
      Some((s[..i], s[i + 1..]))
  }

  /**
   * Splits `s` at its first two `sep` characters into month, day and year
   * text.  None of the three field languages contains a separator, so this
   * is the only way the strptime pattern can line up with `s`.
   */
  function SplitFields(s: string, sep: char): (r: Option<(string, string, string)>)
    ensures r.Some? ==> s == r.value.0 + [sep] + (r.value.1 + [sep] + r.value.2)
    ensures r.Some? ==> sep !in r.value.0 && sep !in r.value.1
  {
    match Cut(s, sep)
    case None => None
    case Some((m, rest)) =>
      match Cut(rest, sep)
      case None => None
      case Some((dd, y)) =>
        Some((m, dd, y))
  }

  /**
   * `datetime.strptime(s, f)`: the whole string must be month, separator,
   * day, separator, year (nothing may remain), and the result must be a
   * real calendar date; otherwise it raises, modelled as `None`.
   */
  function Strptime(s: string, f: DateFormat): (r: Option<Date>)
    ensures r.Some? ==> Valid(r.value)
  {
    match SplitFields(s, Separator(f))
    case None => None
    case Some((mt, dt, yt)) =>
      match (MonthField(mt), DayField(dt), YearField(yt, f))
      case (Some(m), Some(d), Some(y)) =>
        var date := Date(y, m, d);
        if Valid(date) then Some(date) else None
      case _ => None
  }

  /** The first format in `fs` under which `s` parses (the try/continue loop of the parser). */
  function ParseFirst(s: string, fs: seq<DateFormat>): (r: Option<Date>)
    ensures r.Some? ==> Valid(r.value)
  {
    if fs == [] then None
    else if Strptime(s, fs[0]).Some? then Strptime(s, fs[0])
    else ParseFirst(s, fs[1..])
  }

  /**
   * `ParseFirst` is the first format that accepts `s`: its date is one some
   * format gives, and it is `None` exactly when no format accepts `s`.
   */
  lemma {:induction false} ParseFirstRule(s: string, fs: seq<DateFormat>)
    ensures var r := ParseFirst(s, fs);
            (fs != [] && Strptime(s, fs[0]).Some? ==> r == Strptime(s, fs[0])) &&
            (r.Some? ==> exists k :: 0 <= k < |fs| && Strptime(s, fs[k]) == r) &&
            (r.None? <==> forall k :: 0 <= k < |fs| ==> Strptime(s, fs[k]).None?)
  {
    if fs != [] && Strptime(s, fs[0]).None? {
      ParseFirstRule(s, fs[1..]);
      assert forall k :: 1 <= k < |fs| ==> fs[k] == fs[1..][k - 1];
      var r := ParseFirst(s, fs);
      if r.Some? {
        var k :| 0 <= k < |fs[1..]| && Strptime(s, fs[1..][k]) == r;
        assert Strptime(s, fs[k + 1]) == r;
      }
    }
  }

  /** `%m-%d-%y` and `%m-%d-%Y` split the same way and differ only in the year's width. */
  lemma ShortAndLongDisjoint(s: string)
    ensures !(Strptime(s, MdyShort).Some? && Strptime(s, MdyLong).Some?)
  {
  }

  lemma FieldsHaveNoDash(m: string, d: string, y: string, f: DateFormat)
    requires MonthField(m).Some? && DayField(d).Some? && YearField(y, f).Some?
    ensures '-' !in m && '-' !in d && '-' !in y
  {
    assert forall k :: 0 <= k < |y| ==> IsDigit(y[k]);
  }

  /** A string `%m/%d/%Y` accepts has no '-' at all, so neither dashed format accepts it. */
  lemma {:induction false} SlashExcludesDash(s: string)
    ensures Strptime(s, MdySlash).Some? ==> Strptime(s, MdyShort).None? && Strptime(s, MdyLong).None?
  {
    if Strptime(s, MdySlash).Some? {
      var (m, d, y) := SplitFields(s, '/').value;
      FieldsHaveNoDash(m, d, y, MdySlash);
      assert '-' !in s;
      assert Cut(s, '-').None?;
    }
  }

  /**
   * The formats accept disjoint sets of strings, so at most one succeeds
   * and the order of `DateFormats` never changes the parsed date.
   */
  lemma FormatsExclusive(s: string, f: DateFormat, g: DateFormat)
    requires Strptime(s, f).Some? && Strptime(s, g).Some?
    ensures f == g
  {
    ShortAndLongDisjoint(s);
    SlashExcludesDash(s);
  }

  /** The try/continue loop over three formats, written out. */
  lemma {:induction false} ParseFirstThree(s: string, a: DateFormat, b: DateFormat, c: DateFormat)
    ensures ParseFirst(s, [a, b, c]) ==
      if Strptime(s, a).Some? then Strptime(s, a)
      else if Strptime(s, b).Some? then Strptime(s, b)
      else Strptime(s, c)
  {
    var fs := [a, b, c];
    assert fs[1..] == [b, c] && fs[1..][1..] == [c] && fs[1..][1..][1..] == [];
    assert ParseFirst(s, [c]) == Strptime(s, c);
    assert ParseFirst(s, [b, c]) == if Strptime(s, b).Some? then Strptime(s, b) else Strptime(s, c);
  }

  lemma {:induction false} ParseFirstOrderIrrelevant(s: string)
    ensures ParseFirst(s, DateFormats) == ParseFirst(s, [MdyLong, MdySlash, MdyShort])
  {
    ParseFirstThree(s, MdyShort, MdySlash, MdyLong);
    ParseFirstThree(s, MdyLong, MdySlash, MdyShort);
    ShortAndLongDisjoint(s);
    SlashExcludesDash(s);
  }

  // ---------------------------------------------------------------
  // Rendering
  // ---------------------------------------------------------------

  function Digit(n: int): char
    requires 0 <= n <= 9
  {
    ('0' as int + n) as char
  }

  function Pad2(n: int): (r: string)
    requires 0 <= n <= 99
    ensures |r| == 2 && AllDigits(r)
  {
    [Digit(n / 10), Digit(n % 10)]
  }

  function Pad4(n: int): (r: string)
    requires 0 <= n <= 9999
    ensures |r| == 4 && AllDigits(r)
  {
    Pad2(n / 100) + Pad2(n % 100)
  }

  /** `strftime("%m/%d/%Y")`, the COSTDATE rendering. */
  function FormatSlash(d: Date): (r: string)
    requires Valid(d)
    ensures |r| == 10 && r[2] == '/' && r[5] == '/'
  {
    Pad2(d.month) + "/" + Pad2(d.day) + "/" + Pad4(d.year)
  }

  /** `str(date)`: ISO `YYYY-MM-DD`. */
  function FormatIso(d: Date): (r: string)
    requires Valid(d)
    ensures |r| == 10 && r[4] == '-' && r[7] == '-'
    ensures AllDigits(r[..4]) && AllDigits(r[5..7]) && AllDigits(r[8..])
  {
    Pad4(d.year) + "-" + Pad2(d.month) + "-" + Pad2(d.day)
  }

  lemma MonthFieldPad(m: int)
    requires 1 <= m <= 12
    ensures MonthField(Pad2(m)) == Some(m)
  {
  }

  lemma DayFieldPad(d: int)
    requires 1 <= d <= 31
    ensures DayField(Pad2(d)) == Some(d)
  {
  }

  lemma YearFieldPad(y: int)
    requires 0 <= y <= 9999
    ensures YearField(Pad4(y), MdySlash) == Some(y)
  {
    var hi, lo := y / 100, y % 100;
    assert Pad4(y) == [Digit(hi / 10), Digit(hi % 10), Digit(lo / 10), Digit(lo % 10)];
    assert 10 * (hi / 10) + hi % 10 == hi;
    assert 10 * (lo / 10) + lo % 10 == lo;
    assert 100 * hi + lo == y;
  }

  /** A COSTDATE string reads back, under `%m/%d/%Y`, as the date it was written from. */
  lemma {:induction false} SlashRoundTrip(d: Date)
    requires Valid(d)
    ensures Strptime(FormatSlash(d), MdySlash) == Some(d)
  {
    var s := FormatSlash(d);
    var mm, dd, yy := Pad2(d.month), Pad2(d.day), Pad4(d.year);
    assert s == mm + "/" + dd + "/" + yy;
    assert IndexOf(s, '/') == 2;
    var rest := s[3..];
    assert rest == dd + "/" + yy;
    assert IndexOf(rest, '/') == 2;
    assert s[..2] == mm && rest[..2] == dd && rest[3..] == yy;
    assert SplitFields(s, '/') == Some((mm, dd, yy));
    MonthFieldPad(d.month);
    DayFieldPad(d.day);
    YearFieldPad(d.year);
  }

  // ---------------------------------------------------------------
  // Day numbers
  // ---------------------------------------------------------------

  function DaysBeforeYear(y: int): int {
    var p := y - 1;
    p * 365 + p / 4 - p / 100 + p / 400
  }

  function DaysBeforeMonth(y: int, m: int): int
    requires 1 <= m <= 12
    decreases m
  {
    if m == 1 then 0 else DaysBeforeMonth(y, m - 1) + DaysInMonth(y, m - 1)
  }

  /** `date.toordinal()`: 1 January of year 1 is day 1. */
  function Ordinal(d: Date): int
    requires 1 <= d.month <= 12
  {
    DaysBeforeYear(d.year) + DaysBeforeMonth(d.year, d.month) + d.day
  }
}
