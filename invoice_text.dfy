/**
 * The text handling of the invoice parser that does not depend on a
 * clinic's regular expressions: `str.splitlines`, the wrapped-line join
 * of VCA invoices (`re.sub(r"\n(?=\S)", " ", ...)` repeated until no
 * match is left), the itemized-section slice, and `float` of a price.
 */
module InvoiceText {
  import opened Base

  // ---------------------------------------------------------------
  // str.splitlines
  // ---------------------------------------------------------------

  /** The characters `str.splitlines` breaks at (`\r\n` counts as one break). */
  predicate IsLineBreak(c: char) {
    c == '\n' || c == '\r' || c == '\U{0B}' || c == '\U{0C}' || c == '\U{1C}' || c == '\U{1D}' || c == '\U{1E}' ||
    c == '\U{85}' || c == '\U{2028}' || c == '\U{2029}'
  }

  /** Index of the first line break in `s`, or `|s|`. */
  function FirstBreak(s: string): (i: nat)
    ensures i <= |s|
    ensures i < |s| ==> IsLineBreak(s[i])
    ensures forall j :: 0 <= j < i ==> !IsLineBreak(s[j])
  {
    if s == [] then 0
    else if IsLineBreak(s[0]) then 0
    else 1 + FirstBreak(s[1..])
  }

  /** `s.splitlines()`: no trailing empty line, and `\r\n` is a single break. */
  function SplitLines(s: string): (r: seq<string>)
    ensures forall k, j :: 0 <= k < |r| && 0 <= j < |r[k]| ==> !IsLineBreak(r[k][j])
    ensures s == [] <==> r == []
    decreases |s|
  {
    if s == [] then []
    else
      var i := FirstBreak(s);
      if i == |s| then [s]
      else
        var skip := if s[i] == '\r' && i + 1 < |s| && s[i + 1] == '\n' then 2 else 1;
        [s[..i]] + SplitLines(s[i + skip..])
  }

  /** Joining lines with "\n" and splitting gives the lines back (a trailing empty line would be lost). */
  lemma {:induction false} SplitLinesJoin(lines: seq<string>)
    requires forall k, j :: 0 <= k < |lines| && 0 <= j < |lines[k]| ==> !IsLineBreak(lines[k][j])
    requires lines != [] ==> lines[|lines| - 1] != []
    ensures SplitLines(JoinLines(lines)) == lines
  {
    if |lines| == 1 {
      NoBreakFirst(lines[0]);
    } else if |lines| > 1 {
      JoinLinesNonEmpty(lines[1..]);
      SplitLinesCons(lines[0], JoinLines(lines[1..]));
      SplitLinesJoin(lines[1..]);
    }
  }

  lemma SplitLinesCons(first: string, rest: string)
    requires forall j :: 0 <= j < |first| ==> !IsLineBreak(first[j])
    requires rest != []
    ensures SplitLines(first + "\n" + rest) == [first] + SplitLines(rest)
  {
    var s := first + "\n" + rest;
    FirstBreakPrefix(first, "\n" + rest);
    assert s == first + ("\n" + rest);
    assert FirstBreak("\n" + rest) == 0;
    assert s[..|first|] == first;
    assert s[|first| + 1..] == rest;
  }

  /** `"\n".join(lines)`. */
  function JoinLines(lines: seq<string>): string {
    if lines == [] then ""
    else if |lines| == 1 then lines[0]
    else lines[0] + "\n" + JoinLines(lines[1..])
  }

  lemma NoBreakFirst(s: string)
    requires forall j :: 0 <= j < |s| ==> !IsLineBreak(s[j])
    ensures FirstBreak(s) == |s|
  {
  }

  lemma {:induction false} FirstBreakPrefix(a: string, b: string)
    requires forall j :: 0 <= j < |a| ==> !IsLineBreak(a[j])
    ensures FirstBreak(a + b) == |a| + FirstBreak(b)
    decreases |a|
  {
    if a != [] {
      assert (a + b)[1..] == a[1..] + b;
      FirstBreakPrefix(a[1..], b);
    } else {
      assert a + b == b;
    }
  }

  lemma {:induction false} JoinLinesNonEmpty(lines: seq<string>)
    requires lines != [] && lines[|lines| - 1] != []
    ensures JoinLines(lines) != []
  {
    if |lines| > 1 {
      JoinLinesNonEmpty(lines[1..]);
    }
  }

  // ---------------------------------------------------------------
  // Joining wrapped lines: re.sub(r"\n(?=\S)", " ", text, 8) until stable
  // ---------------------------------------------------------------

  /** `\n(?=\S)` matches at `i`: a newline followed by a non-space character. */
  predicate WrappedAt(t: string, i: int) {
    0 <= i && i + 1 < |t| && t[i] == '\n' && !IsSpace(t[i + 1])
  }

  predicate HasWrapped(t: string) {
    exists i | 0 <= i < |t| :: WrappedAt(t, i)
  }

  function CountChar(t: string, c: char): nat {
    if t == [] then 0 else (if t[0] == c then 1 else 0) + CountChar(t[1..], c)
  }

  /**
   * `re.sub(r"\n(?=\S)", " ", t, n)`: the first `n` matches, left to
   * right, become spaces.  The look-ahead reads the original text.
   */
  function SubWrapped(t: string, n: nat): (r: string)
    ensures |r| == |t|
    ensures forall i :: 0 <= i < |t| ==> r[i] == t[i] || (WrappedAt(t, i) && r[i] == ' ')
    decreases |t|
  {
    if t == [] then []
    else if n > 0 && WrappedAt(t, 0) then
      var rest := SubWrapped(t[1..], n - 1);
      WrappedTail(t);
      [' '] + rest
    else
      var rest := SubWrapped(t[1..], n);
      WrappedTail(t);
      [t[0]] + rest
  }

  lemma WrappedTail(t: string)
    requires t != []
    ensures forall i :: 1 <= i < |t| ==> (WrappedAt(t[1..], i - 1) <==> WrappedAt(t, i))
  {
  }

  /** A substitution with a positive count replaces a newline whenever there is a match, so the loop ends. */
  lemma {:induction false} SubWrappedProgress(t: string, n: nat)
    ensures CountChar(SubWrapped(t, n), '\n') <= CountChar(t, '\n')
    ensures n > 0 && HasWrapped(t) ==> CountChar(SubWrapped(t, n), '\n') < CountChar(t, '\n')
    decreases |t|
  {
    if t != [] {
      var r := SubWrapped(t, n);
      if n > 0 && WrappedAt(t, 0) {
        SubWrappedProgress(t[1..], n - 1);
        assert r[1..] == SubWrapped(t[1..], n - 1);
      } else {
        SubWrappedProgress(t[1..], n);
        assert r[1..] == SubWrapped(t[1..], n);
        if n > 0 && HasWrapped(t) {
          var i :| 0 <= i < |t| && WrappedAt(t, i);
          assert i >= 1;
          WrappedTail(t);
          assert WrappedAt(t[1..], i - 1);
        }
      }
    }
  }

  /** Every wrapped newline of `t` turned into a space, in one pass. */
  function JoinWrapped(t: string): (r: string)
    ensures |r| == |t|
    ensures forall i :: 0 <= i < |t| ==> r[i] == (if WrappedAt(t, i) then ' ' else t[i])
  {
    seq(|t|, i requires 0 <= i < |t| => if WrappedAt(t, i) then ' ' else t[i])
  }

  /**
   * Replacing a wrapped newline by a space never creates or removes another
   * match, so any partial substitution has the same one-pass join.
   */
  lemma SubWrappedSameJoin(t: string, n: nat)
    ensures JoinWrapped(SubWrapped(t, n)) == JoinWrapped(t)
  {
    var r := SubWrapped(t, n);
    forall i | 0 <= i < |t|
      ensures JoinWrapped(r)[i] == JoinWrapped(t)[i]
    {
      if i + 1 < |t| {
        assert IsSpace(r[i + 1]) <==> IsSpace(t[i + 1]);
      }
    }
  }

  lemma JoinWrappedFixed(t: string)
    requires !HasWrapped(t)
    ensures JoinWrapped(t) == t
  {
  }

  /** After the one-pass join no wrapped newline is left. */
  lemma JoinWrappedStable(t: string)
    ensures !HasWrapped(JoinWrapped(t))
  {
    var r := JoinWrapped(t);
    forall i | 0 <= i < |r|
      ensures !WrappedAt(r, i)
    {
    }
  }

  /** The `while re.search(...): new_text = re.sub(..., re.MULTILINE)` loop; the count passed is 8. */
  method ReduceWrapped(t: string) returns (r: string)
    ensures r == JoinWrapped(t)
  {
    r := t;
    while HasWrapped(r)
      invariant JoinWrapped(r) == JoinWrapped(t)
      decreases CountChar(r, '\n')
    {
      SubWrappedProgress(r, 8);
      SubWrappedSameJoin(r, 8);
      r := SubWrapped(r, 8);
    }
    JoinWrappedFixed(r);
  }

  // ---------------------------------------------------------------
  // Itemized sections
  // ---------------------------------------------------------------

  /** Python's `s[k:]` for a non-negative `k`. */
  function SuffixFrom(s: string, k: nat): (r: string)
    ensures |r| == if k <= |s| then |s| - k else 0
  {
    if k <= |s| then s[k..] else ""
  }

  /**
   * One itemized section: the text from a begin match up to the first end
   * marker, cut with `start_text[:find(...)]`, and joined when the clinic
   * joins wrapped lines.
   */
  function Section(text: string, start: nat, endMarker: string, joinWrapped: bool): string {
    var startText := SuffixFrom(text, start);
    var raw := PyPrefix(startText, Find(startText, endMarker));
    if joinWrapped then JoinWrapped(raw) else raw
  }

  /** The section stops right before the first end marker after its start. */
  lemma SectionStopsAtMarker(text: string, start: nat, endMarker: string)
    requires start <= |text| && Contains(text[start..], endMarker)
    ensures var st := text[start..];
            Section(text, start, endMarker, false) == st[..Find(st, endMarker)] &&
            (endMarker == [] || !Contains(Section(text, start, endMarker, false), endMarker))
  {
    var st := text[start..];
    var e := Find(st, endMarker);
    var sec := st[..e];
    if endMarker != [] && Contains(sec, endMarker) {
      var i :| 0 <= i <= |sec| - |endMarker| && StartsAt(sec, i, endMarker);
      assert st[i..i + |endMarker|] == sec[i..i + |endMarker|];
      assert StartsAt(st, i, endMarker);
    }
  }

  /**
   * Without an end marker `find` returns -1 and `[:-1]` drops the last
   * character of the remaining text.
   */
  lemma MissingMarkerDropsLastChar(text: string, start: nat, endMarker: string)
    requires start < |text| && !Contains(text[start..], endMarker)
    ensures Section(text, start, endMarker, false) == text[start..|text| - 1]
  {
  }

  // ---------------------------------------------------------------
  // float() of a price
  // ---------------------------------------------------------------

  function DigitsFraction(s: string): (r: real)
    requires AllDigits(s)
    ensures 0.0 <= r < 1.0
  {
    if s == [] then 0.0
    else ((s[0] as int - '0' as int) as real + DigitsFraction(s[1..])) / 10.0
  }

  /**
   * `float(s)` for texts of digits with at most one point and at least one
   * digit, the only texts a price pattern captures; any other text is
   * `None`.
   */
  function PriceValue(s: string): (r: Option<real>)
    ensures r.Some? ==> r.value >= 0.0
  {
    var i := IndexOf(s, '.');
    if i < 0 then
      if s != [] && AllDigits(s) then Some(DigitsValue(s) as real) else None
    else if (i > 0 || i + 1 < |s|) && AllDigits(s[..i]) && AllDigits(s[i + 1..]) then
      Some(DigitsValue(s[..i]) as real + DigitsFraction(s[i + 1..]))
    else None
  }

  function Pow10(n: nat): (r: nat)
    ensures r >= 1
  {
    if n == 0 then 1 else 10 * Pow10(n - 1)
  }

  /** Reading a digit string from the front: the first digit is worth 10^(n-1). */
  lemma {:induction false} DigitsValueFront(s: string)
    requires s != [] && AllDigits(s)
    ensures DigitsValue(s) == (s[0] as int - '0' as int) * Pow10(|s| - 1) + DigitsValue(s[1..])
    decreases |s|
  {
    var n := |s|;
    if n > 1 {
      var init := s[..n - 1];
      DigitsValueFront(init);
      assert init[1..] == s[1..][..n - 2];
      assert init[0] == s[0];
      assert s[1..][n - 2] == s[n - 1];
      var d0, last := s[0] as int - '0' as int, s[n - 1] as int - '0' as int;
      assert DigitsValue(s) == DigitsValue(init) * 10 + last;
      assert DigitsValue(s[1..]) == DigitsValue(init[1..]) * 10 + last;
      ShiftDigit(d0, Pow10(n - 2), DigitsValue(init[1..]), last);
    } else {
      assert s[..0] == [] && s[1..] == [];
    }
  }

  /** Appending a digit multiplies the leading digit's weight by ten. */
  lemma ShiftDigit(d: int, p: int, x: int, y: int)
    ensures (d * p + x) * 10 + y == d * (10 * p) + (x * 10 + y)
  {
  }

  /** The digits after the point are worth their value over 10^|s|. */
  lemma {:induction false} DigitsFractionValue(s: string)
    requires AllDigits(s)
    ensures DigitsFraction(s) == DigitsValue(s) as real / Pow10(|s|) as real
    decreases |s|
  {
    if s != [] {
      DigitsFractionValue(s[1..]);
      DigitsValueFront(s);
      ShiftPoint(s[0] as int - '0' as int, Pow10(|s| - 1), DigitsValue(s[1..]));
    }
  }

  /** Moving the point one place: (d + v/p) / 10 is (d*p + v) / (10*p). */
  lemma ShiftPoint(d: int, p: int, v: int)
    requires p >= 1
    ensures (d as real + v as real / p as real) / 10.0 == (d * p + v) as real / (10 * p) as real
  {
    var dr, pr, vr := d as real, p as real, v as real;
    assert (d * p) as real == dr * pr;
    assert (10 * p) as real == 10.0 * pr;
    assert dr + vr / pr == (dr * pr + vr) / pr;
  }

  /** The decimal number with whole digits `w` and fractional digits `f`: w + f / 10^|f|. */
  function Decimal(w: string, f: string): real
    requires AllDigits(w) && AllDigits(f)
  {
    DigitsValue(w) as real + DigitsValue(f) as real / Pow10(|f|) as real
  }

  /**
   * `float` of whole and fractional digits: a text with digits before its
   * point at `i` and digits after it is that decimal number.
   */
  lemma PriceValueRule(s: string, i: nat)
    requires i < |s| && s[i] == '.' && (i > 0 || i + 1 < |s|)
    requires AllDigits(s[..i]) && AllDigits(s[i + 1..])
    ensures PriceValue(s) == Some(Decimal(s[..i], s[i + 1..]))
  {
    PointAt(s, i);
    PriceValueAt(s, i);
    DigitsFractionValue(s[i + 1..]);
  }

  /** A plain digit string is worth its value. */
  lemma PriceValueDigits(s: string)
    requires s != [] && AllDigits(s)
    ensures PriceValue(s) == Some(DigitsValue(s) as real)
  {
    assert '.' !in s by { assert forall k :: 0 <= k < |s| ==> s[k] != '.'; }
  }

  lemma PriceValueAt(s: string, i: int)
    requires 0 <= i < |s| && IndexOf(s, '.') == i && (i > 0 || i + 1 < |s|)
    requires AllDigits(s[..i]) && AllDigits(s[i + 1..])
    ensures PriceValue(s) == Some(DigitsValue(s[..i]) as real + DigitsFraction(s[i + 1..]))
  {
  }

  /** The point after a digit string is the first one. */
  lemma PointAt(s: string, i: nat)
    requires i < |s| && s[i] == '.' && AllDigits(s[..i])
    ensures IndexOf(s, '.') == i
  {
    assert forall k :: 0 <= k < i ==> s[k] == s[..i][k] && s[k] != '.';
  }

  /** Digits with at most one point, and at least one digit. */
  predicate FloatText(s: string) {
    (forall i :: 0 <= i < |s| ==> IsDigit(s[i]) || s[i] == '.') &&
    (forall i, j :: 0 <= i < j < |s| && s[i] == '.' ==> s[j] != '.') &&
    (exists i :: 0 <= i < |s| && IsDigit(s[i]))
  }

  /** `PriceValue` reads exactly the digit-and-point texts; any other character, or a second point, gives none. */
  lemma PriceValueShape(s: string)
    ensures PriceValue(s).Some? <==> FloatText(s)
  {
    var i := IndexOf(s, '.');
    if i >= 0 {
      var w, f := s[..i], s[i + 1..];
      assert forall k :: 0 <= k < i ==> s[k] == w[k];
      assert forall k :: i < k < |s| ==> s[k] == f[k - i - 1];
      if FloatText(s) {
        var k :| 0 <= k < |s| && IsDigit(s[k]);
        assert k != i;
        assert forall k :: 0 <= k < i ==> s[k] != '.' by { assert '.' !in w; }
      }
      if PriceValue(s).Some? {
        assert forall k :: 0 <= k < i ==> s[k] != '.' by { assert '.' !in w; }
        if i > 0 { assert IsDigit(s[0]); } else { assert IsDigit(s[i + 1]); }
      }
    } else {
      assert forall k :: 0 <= k < |s| ==> s[k] != '.';
      if s != [] { assert IsDigit(s[0]) || !AllDigits(s); }
    }
  }

  /** Two-decimal prices read back exactly: "12.34" is 12.34. */
  lemma PriceValueExample()
    ensures PriceValue("12.34") == Some(12.34)
  {
    assert IndexOf("12.34", '.') == 2;
    assert "12.34"[..2] == "12" && "12.34"[3..] == "34";
    assert "12"[..1] == "1" && DigitsValue("12") == 12;
    assert "34"[1..] == "4" && "4"[1..] == "" && DigitsFraction("34") == 0.34;
  }

  /** A zero price reads as zero; a currency sign makes the text unreadable. */
  lemma PriceValueZeroExample()
    ensures PriceValue("0.00") == Some(0.0)
    ensures PriceValue("$5") == None
  {
    assert "$5"[0] == '$';
    assert IndexOf("0.00", '.') == 1;
    assert "0.00"[..1] == "0" && "0.00"[2..] == "00";
  }

}
