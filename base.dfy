/**
 * Shared vocabulary: optional values, results, and the handful of
 * Python string operations the invoice pipeline leans on, stated over
 * `seq<char>`.  Character classes are the ASCII ones except `IsSpace`,
 * which is Python's full `str.isspace` / `\s` set.
 */
module Base {

  datatype Option<T> = None | Some(value: T)

  /** A computation that either yields a value or raises with a message. */
  datatype Result<T> = Ok(value: T) | Err(error: string) {
    predicate IsFailure() { Err? }
  }

  // ---------------------------------------------------------------
  // Character classes
  // ---------------------------------------------------------------

  predicate IsDigit(c: char) { '0' <= c <= '9' }
  predicate IsUpper(c: char) { 'A' <= c <= 'Z' }
  predicate IsLowerLetter(c: char) { 'a' <= c <= 'z' }

  /** `\w` over ASCII: letters, digits and underscore. */
  predicate IsWordChar(c: char) { IsDigit(c) || IsUpper(c) || IsLowerLetter(c) || c == '_' }

  /** Python's `str.isspace` (and the `\s` class of `re` on str patterns). */
  predicate IsSpace(c: char) {
    ('\U{9}' <= c <= '\U{D}') || ('\U{1C}' <= c <= '\U{20}') ||
    c == '\U{85}' || c == '\U{A0}' || c == '\U{1680}' || ('\U{2000}' <= c <= '\U{200A}') ||
    c == '\U{2028}' || c == '\U{2029}' || c == '\U{202F}' || c == '\U{205F}' || c == '\U{3000}'
  }

  /** `str.lower` on one character (ASCII letters only). */
  function LowerChar(c: char): (r: char)
    ensures IsUpper(c) ==> IsLowerLetter(r) && r as int == c as int + 32
    ensures !IsUpper(c) ==> r == c
    ensures !IsUpper(r)
  {
    if IsUpper(c) then (c as int + 32) as char else c
  }

  function Lower(s: string): (r: string)
    ensures |r| == |s|
    ensures forall i :: 0 <= i < |s| ==> r[i] == LowerChar(s[i])
  {
    if s == [] then [] else [LowerChar(s[0])] + Lower(s[1..])
  }

  lemma LowerIdempotent(s: string)
    ensures Lower(Lower(s)) == Lower(s)
  {
  }

  lemma LowerHasNoUpper(s: string)
    ensures forall i :: 0 <= i < |Lower(s)| ==> !IsUpper(Lower(s)[i])
  {
  }

  // ---------------------------------------------------------------
  // Substrings
  // ---------------------------------------------------------------

  /** `p` occurs in `s` starting at index `i`. */
  predicate StartsAt(s: string, i: int, p: string) {
    0 <= i && i + |p| <= |s| && s[i..i + |p|] == p
  }

  /** Python's `p in s` (a literal regex alternative found by `re.search`). */
  predicate Contains(s: string, p: string) {
    exists i :: 0 <= i <= |s| - |p| && StartsAt(s, i, p)
  }

  /** Some alternative of `ps` occurs in `s` (a `re.search` over a literal alternation). */
  predicate ContainsAny(s: string, ps: seq<string>) {
    ps != [] && (Contains(s, ps[0]) || ContainsAny(s, ps[1..]))
  }

  /** An occurrence in a suffix is an occurrence in the whole. */
  lemma ContainsSuffix(s: string, p: string, n: int)
    requires 0 <= n <= |s| && Contains(s[n..], p)
    ensures Contains(s, p)
  {
    var i :| 0 <= i <= |s[n..]| - |p| && StartsAt(s[n..], i, p);
    assert s[n + i..n + i + |p|] == s[n..][i..i + |p|];
    assert StartsAt(s, n + i, p);
  }

  predicate EndsWith(s: string, p: string) {
    |p| <= |s| && s[|s| - |p|..] == p
  }

  /** Leftmost occurrence of `p` in `s` at or after `from`, or -1. */
  function FindFrom(s: string, p: string, from: nat): (r: int)
    requires from <= |s| + 1
    ensures r == -1 || (from <= r && StartsAt(s, r, p))
    ensures r == -1 ==> forall i :: from <= i <= |s| - |p| ==> !StartsAt(s, i, p)
    ensures r != -1 ==> forall i :: from <= i < r ==> !StartsAt(s, i, p)
    decreases |s| + 1 - from
  {
    if from + |p| > |s| then -1
    else if s[from..from + |p|] == p then from
    else FindFrom(s, p, from + 1)
  }

  /** Python's `str.find`: the leftmost index of `p` in `s`, or -1. */
  function Find(s: string, p: string): (r: int)
    ensures r == -1 <==> !Contains(s, p)
    ensures r != -1 ==> StartsAt(s, r, p) && forall i :: 0 <= i < r ==> !StartsAt(s, i, p)
  {
    FindFrom(s, p, 0)
  }

  /** Python's `s.find(c)` for a one-character needle. */
  function IndexOf(s: string, c: char): (r: int)
    ensures -1 <= r < |s|
    ensures r == -1 <==> c !in s
    ensures r >= 0 ==> s[r] == c && c !in s[..r]
  {
    if s == [] then -1
    else if s[0] == c then 0
    else
      var k := IndexOf(s[1..], c);
      assert k >= 0 ==> s[..k + 1] == [s[0]] + s[1..][..k];
      if k < 0 then -1 else k + 1
  }

  /** Python's `s[:k]` for any integer `k`: negative counts from the end, both clamp. */
  function PyPrefix(s: string, k: int): (r: string)
    ensures 0 <= k <= |s| ==> r == s[..k]
    ensures k < 0 && -k <= |s| ==> r == s[..|s| + k]
    ensures |r| <= |s| && r == s[..|r|]
  {
    if k >= |s| then s
    else if k >= 0 then s[..k]
    else if -k <= |s| then s[..|s| + k]
    else []
  }

  // ---------------------------------------------------------------
  // Stripping, splitting, joining
  // ---------------------------------------------------------------

  function TrimLeft(s: string, drop: char -> bool): (r: string)
    ensures |r| <= |s| && r == s[|s| - |r|..]
    ensures r != [] ==> !drop(r[0])
    ensures forall i :: 0 <= i < |s| - |r| ==> drop(s[i])
  {
    if s != [] && drop(s[0]) then TrimLeft(s[1..], drop) else s
  }

  function TrimRight(s: string, drop: char -> bool): (r: string)
    ensures |r| <= |s| && r == s[..|r|]
    ensures r != [] ==> !drop(r[|r| - 1])
    ensures forall i :: |r| <= i < |s| ==> drop(s[i])
  {
    if s != [] && drop(s[|s| - 1]) then TrimRight(s[..|s| - 1], drop) else s
  }

  /** `s.strip(chars)` for a character predicate: the middle part left after dropping both ends. */
  function StripBy(s: string, drop: char -> bool): (r: string)
    ensures |r| <= |s|
    ensures r != [] ==> !drop(r[0]) && !drop(r[|r| - 1])
    ensures var lo := |s| - |TrimLeft(s, drop)|;
      lo + |r| <= |s| && r == s[lo..lo + |r|] &&
      (forall j :: 0 <= j < lo ==> drop(s[j])) &&
      (forall j :: lo + |r| <= j < |s| ==> drop(s[j]))
  {
    var l := TrimLeft(s, drop);
    var r := TrimRight(l, drop);
    TrimBoth(s, l, r, drop);
    r
  }

  lemma TrimBoth(s: string, l: string, r: string, drop: char -> bool)
    requires |l| <= |s| && l == s[|s| - |l|..]
    requires |r| <= |l| && r == l[..|r|]
    requires forall i :: |r| <= i < |l| ==> drop(l[i])
    ensures var lo := |s| - |l|;
      lo + |r| <= |s| && r == s[lo..lo + |r|] &&
      (forall j :: lo + |r| <= j < |s| ==> drop(s[j]))
  {
    var lo := |s| - |l|;
    forall j | lo + |r| <= j < |s| ensures drop(s[j]) {
      assert s[j] == l[j - lo];
    }
  }

  /** An occurrence inside a slice is an occurrence in the whole text. */
  lemma ContainsInSlice(s: string, lo: int, hi: int, p: string)
    requires 0 <= lo <= hi <= |s| && Contains(s[lo..hi], p)
    ensures Contains(s, p)
  {
    var t := s[lo..hi];
    var i :| 0 <= i <= |t| - |p| && StartsAt(t, i, p);
    forall k | 0 <= k < |p|
      ensures s[lo + i..lo + i + |p|][k] == p[k]
    {
      assert p[k] == t[i..i + |p|][k] == t[i + k] == s[lo + i + k];
    }
    assert s[lo + i..lo + i + |p|] == p;
    assert StartsAt(s, lo + i, p);
  }

  /** Stripping never creates an occurrence that was not in the text. */
  lemma StripByOnlyShrinks(s: string, drop: char -> bool, p: string)
    requires !Contains(s, p)
    ensures !Contains(StripBy(s, drop), p)
  {
    var r := StripBy(s, drop);
    var lo := |s| - |TrimLeft(s, drop)|;
    if Contains(r, p) {
      ContainsInSlice(s, lo, lo + |r|, p);
    }
  }

  /** Stripping never loses an occurrence of a text with no stripped character in it. */
  lemma StripKeepsContains(s: string, drop: char -> bool, p: string)
    requires p != [] && !drop(p[0]) && !drop(p[|p| - 1])
    requires Contains(s, p)
    ensures Contains(StripBy(s, drop), p)
  {
    var i :| 0 <= i <= |s| - |p| && StartsAt(s, i, p);
    var r := StripBy(s, drop);
    var lo := |s| - |TrimLeft(s, drop)|;
    var last := i + |p| - 1;
    assert s[i] == s[i..i + |p|][0] == p[0];
    assert s[last] == s[i..i + |p|][|p| - 1] == p[|p| - 1];
    assert !drop(s[i]) && !drop(s[last]);
    assert lo <= i;
    assert last < lo + |r|;
    assert r[i - lo..i - lo + |p|] == s[i..i + |p|];
    assert StartsAt(r, i - lo, p);
  }

  /** Python's `str.strip()` with no argument. */
  function Strip(s: string): (r: string)
    ensures |r| <= |s|
    ensures r != [] ==> !IsSpace(r[0]) && !IsSpace(r[|r| - 1])
  {
    StripBy(s, IsSpace)
  }

  /** Stripping keeps a property every character of the text has. */
  lemma StripKeepsAll(s: string, p: char -> bool)
    requires forall i :: 0 <= i < |s| ==> p(s[i])
    ensures forall i :: 0 <= i < |Strip(s)| ==> p(Strip(s)[i])
  {
    var lo := |s| - |TrimLeft(s, IsSpace)|;
    assert Strip(s) == s[lo..lo + |Strip(s)|];
  }

  /** Drop every character satisfying `drop` (a one-character-class `re.sub(.., "")`). */
  function RemoveChars(s: string, drop: char -> bool): (r: string)
    ensures |r| <= |s|
    ensures forall i :: 0 <= i < |r| ==> !drop(r[i])
    ensures forall i :: 0 <= i < |r| ==> r[i] in s
  {
    if s == [] then []
    else if drop(s[0]) then RemoveChars(s[1..], drop)
    else [s[0]] + RemoveChars(s[1..], drop)
  }

  /** Replace every character satisfying `hit` with `sub`. */
  function MapChars(s: string, hit: char -> bool, sub: char): (r: string)
    ensures |r| == |s|
    ensures forall i :: 0 <= i < |s| ==> r[i] == (if hit(s[i]) then sub else s[i])
  {
    if s == [] then [] else [if hit(s[0]) then sub else s[0]] + MapChars(s[1..], hit, sub)
  }

  /** Leading non-space run of `s`. */
  function TakeWord(s: string): (r: string)
    ensures |r| <= |s| && r == s[..|r|]
    ensures forall i :: 0 <= i < |r| ==> !IsSpace(r[i])
    ensures |r| < |s| ==> IsSpace(s[|r|])
  {
    if s == [] || IsSpace(s[0]) then [] else [s[0]] + TakeWord(s[1..])
  }

  /** Python's `str.split()`: the maximal runs of non-whitespace, in order. */
  function SplitWs(s: string): (r: seq<string>)
    ensures forall k :: 0 <= k < |r| ==> r[k] != [] && forall i :: 0 <= i < |r[k]| ==> !IsSpace(r[k][i])
    ensures (forall i :: 0 <= i < |s| ==> IsSpace(s[i])) <==> r == []
    decreases |s|
  {
    if s == [] then []
    else if IsSpace(s[0]) then SplitWs(s[1..])
    else
      var w := TakeWord(s);
      [w] + SplitWs(s[|w|..])
  }

  /** `sep.join(parts)`. */
  function Join(parts: seq<string>, sep: string): (r: string)
    ensures |parts| == 1 ==> r == parts[0]
    ensures parts == [] ==> r == []
  {
    if parts == [] then []
    else if |parts| == 1 then parts[0]
    else parts[0] + sep + Join(parts[1..], sep)
  }

  /** Maximal runs of digits (`re.findall(r"\d+", s)`). */
  function DigitRuns(s: string): (r: seq<string>)
    ensures forall k :: 0 <= k < |r| ==> r[k] != [] && forall i :: 0 <= i < |r[k]| ==> IsDigit(r[k][i])
    decreases |s|
  {
    if s == [] then []
    else if !IsDigit(s[0]) then DigitRuns(s[1..])
    else
      var w := TakeDigits(s);
      [w] + DigitRuns(s[|w|..])
  }

  function TakeDigits(s: string): (r: string)
    ensures |r| <= |s| && r == s[..|r|]
    ensures forall i :: 0 <= i < |r| ==> IsDigit(r[i])
    ensures s != [] && IsDigit(s[0]) ==> r != []
    ensures |r| < |s| ==> !IsDigit(s[|r|])
  {
    if s == [] || !IsDigit(s[0]) then [] else [s[0]] + TakeDigits(s[1..])
  }

  predicate AllDigits(s: string) { forall i :: 0 <= i < |s| ==> IsDigit(s[i]) }

  /** Decimal value of a digit string. */
  function DigitsValue(s: string): (r: nat)
    requires AllDigits(s)
  {
    if s == [] then 0 else DigitsValue(s[..|s| - 1]) * 10 + (s[|s| - 1] as int - '0' as int)
  }

  /** Decimal digit string of a natural number (no leading zeros; "0" for zero). */
  function NatToString(n: nat): (r: string)
    ensures r != [] && AllDigits(r)
    decreases n
  {
    if n < 10 then [('0' as int + n) as char]
    else NatToString(n / 10) + [('0' as int + n % 10) as char]
  }

  lemma {:induction false} NatToStringRoundTrip(n: nat)
    ensures DigitsValue(NatToString(n)) == n
    decreases n
  {
    if n >= 10 {
      NatToStringRoundTrip(n / 10);
      var s := NatToString(n);
      assert s[..|s| - 1] == NatToString(n / 10);
    }
  }

  /** Distinct values of a sequence, in order of first appearance. */
  function Dedup<T(==,!new)>(s: seq<T>): (r: seq<T>)
    ensures forall x :: x in r <==> x in s
    ensures forall i, j :: 0 <= i < j < |r| ==> r[i] != r[j]
    ensures |r| <= |s|
  {
    DedupAfter(s, [])
  }

  function DedupAfter<T(==,!new)>(s: seq<T>, seen: seq<T>): (r: seq<T>)
    requires forall i, j :: 0 <= i < j < |seen| ==> seen[i] != seen[j]
    ensures forall x :: x in r <==> x in s && x !in seen
    ensures forall i, j :: 0 <= i < j < |r| ==> r[i] != r[j]
    ensures |r| <= |s|
  {
    if s == [] then []
    else if s[0] in seen then DedupAfter(s[1..], seen)
    else
      var rest := DedupAfter(s[1..], seen + [s[0]]);
      assert s[0] !in rest;
      [s[0]] + rest
  }

  function SumReals(xs: seq<real>): real {
    if xs == [] then 0.0 else xs[0] + SumReals(xs[1..])
  }

  lemma {:induction false} SumRealsAppend(a: seq<real>, b: seq<real>)
    ensures SumReals(a + b) == SumReals(a) + SumReals(b)
  {
    if a != [] {
      assert (a + b)[0] == a[0] && (a + b)[1..] == a[1..] + b;
      SumRealsAppend(a[1..], b);
    } else {
      assert a + b == b;
    }
  }
}
