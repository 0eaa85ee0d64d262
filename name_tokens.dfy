// src/features/name_generator.py, `clean_and_split_names`: how a name is
// cut into lowercase word tokens.

module NameTokens {
  import opened Base

  // ---------------------------------------------------------------
  // clean_and_split_names
  // ---------------------------------------------------------------

  /** `[^\w\s-]`: neither a word character, nor whitespace, nor a hyphen. */
  predicate Punctuation(c: char) { !(IsWordChar(c) || IsSpace(c) || c == '-') }

  /** `[‘’“”]`: the curly quotes. */
  predicate CurlyQuote(c: char) { c == '\U{2018}' || c == '\U{2019}' || c == '\U{201C}' || c == '\U{201D}' }

  /** `[',\"]`: the straight quotes and the comma. */
  predicate QuoteOrComma(c: char) { c == '\'' || c == ',' || c == '"' }

  predicate IsHyphen(c: char) { c == '-' }

  predicate NotWordChar(c: char) { !IsWordChar(c) }

  /** The value after the character replacements, lowercased, punctuation then quotes then hyphens made spaces. */
  function Cleaned(s: string): string {
    var punct := MapChars(Lower(s), Punctuation, ' ');
    MapChars(MapChars(MapChars(punct, CurlyQuote, ' '), QuoteOrComma, ' '), IsHyphen, ' ')
  }

  /** The tokens of one value: `str.split()` of the cleaned value. */
  function Tokens(s: string): seq<string> {
    SplitWs(Cleaned(s))
  }

  /** The quote and comma replacements find nothing left: the punctuation step already made them spaces. */
  lemma QuoteStepsIdle(s: string)
    ensures var punct := MapChars(Lower(s), Punctuation, ' ');
            MapChars(MapChars(punct, CurlyQuote, ' '), QuoteOrComma, ' ') == punct
  {
    var punct := MapChars(Lower(s), Punctuation, ' ');
    forall i | 0 <= i < |punct| ensures !CurlyQuote(punct[i]) && !QuoteOrComma(punct[i]) {
      assert punct[i] == ' ' || !Punctuation(punct[i]);
    }
    MapCharsIdle(punct, CurlyQuote, ' ');
    MapCharsIdle(punct, QuoteOrComma, ' ');
  }

  /** A replacement that finds nothing leaves the text as it is. */
  lemma MapCharsIdle(t: string, hit: char -> bool, sub: char)
    requires forall i :: 0 <= i < |t| ==> !hit(t[i])
    ensures MapChars(t, hit, sub) == t
  {
  }

  /** Character by character: a word character survives lowercased, anything else is whitespace. */
  lemma CleanedChars(s: string)
    ensures |Cleaned(s)| == |s|
    ensures forall i :: 0 <= i < |s| ==>
              (IsSpace(Cleaned(s)[i]) <==> !IsWordChar(LowerChar(s[i]))) &&
              (IsWordChar(LowerChar(s[i])) ==> Cleaned(s)[i] == LowerChar(s[i]))
  {
    QuoteStepsIdle(s);
  }

  /** Every character of every word of `str.split()` comes from the string. */
  lemma {:induction false} SplitWsChars(s: string)
    ensures forall k, i :: 0 <= k < |SplitWs(s)| && 0 <= i < |SplitWs(s)[k]| ==> SplitWs(s)[k][i] in s
    decreases |s|
  {
    if s != [] {
      if IsSpace(s[0]) {
        SplitWsChars(s[1..]);
      } else {
        var w := TakeWord(s);
        SplitWsChars(s[|w|..]);
      }
    }
  }

  /** The words concatenated. */
  function Concat(ws: seq<string>): string {
    if ws == [] then [] else ws[0] + Concat(ws[1..])
  }

  /** Dropping characters from a text none of whose characters is dropped keeps it. */
  lemma {:induction false} RemoveCharsKeep(w: string, rest: string, drop: char -> bool)
    requires forall i :: 0 <= i < |w| ==> !drop(w[i])
    ensures RemoveChars(w + rest, drop) == w + RemoveChars(rest, drop)
    decreases |w|
  {
    if w != [] {
      assert (w + rest)[0] == w[0] && (w + rest)[1..] == w[1..] + rest;
      RemoveCharsKeep(w[1..], rest, drop);
    } else {
      assert w + rest == rest;
    }
  }

  /** The words of `str.split()` are the non-whitespace characters, in order. */
  lemma {:induction false} SplitWsConcat(s: string)
    ensures Concat(SplitWs(s)) == RemoveChars(s, IsSpace)
    decreases |s|
  {
    if s != [] {
      if IsSpace(s[0]) {
        SplitWsConcat(s[1..]);
      } else {
        var w := TakeWord(s);
        var rest := s[|w|..];
        assert s == w + rest;
        SplitWsConcat(rest);
        RemoveCharsKeep(w, rest, IsSpace);
      }
    }
  }

  /** Two texts that drop at the same places and agree where they keep keep the same characters. */
  lemma {:induction false} RemoveCharsAgree(a: string, b: string, p: char -> bool, q: char -> bool)
    requires |a| == |b|
    requires forall i :: 0 <= i < |a| ==> (p(a[i]) <==> q(b[i])) && (!p(a[i]) ==> a[i] == b[i])
    ensures RemoveChars(a, p) == RemoveChars(b, q)
    decreases |a|
  {
    if a != [] {
      forall i | 0 <= i < |a| - 1 ensures (p(a[1..][i]) <==> q(b[1..][i])) && (!p(a[1..][i]) ==> a[1..][i] == b[1..][i]) {
        assert a[1..][i] == a[i + 1] && b[1..][i] == b[i + 1];
      }
      RemoveCharsAgree(a[1..], b[1..], p, q);
    }
  }

  /** Leading run of word characters. */
  function TakeWordChars(t: string): (r: string)
    ensures |r| <= |t| && r == t[..|r|]
    ensures forall i :: 0 <= i < |r| ==> IsWordChar(r[i])
    ensures |r| < |t| ==> !IsWordChar(t[|r|])
  {
    if t == [] || !IsWordChar(t[0]) then [] else [t[0]] + TakeWordChars(t[1..])
  }

  /** The maximal runs of word characters, `re.findall(r"\w+", t)`. */
  function WordRuns(t: string): seq<string>
    decreases |t|
  {
    if t == [] then []
    else if !IsWordChar(t[0]) then WordRuns(t[1..])
    else
      var w := TakeWordChars(t);
      [w] + WordRuns(t[|w|..])
  }

  /** `c` is whitespace exactly where `t` has no word character, and agrees with `t` elsewhere. */
  predicate SpacedAs(c: string, t: string) {
    |c| == |t| &&
    forall i :: 0 <= i < |t| ==> (IsSpace(c[i]) <==> !IsWordChar(t[i])) && (IsWordChar(t[i]) ==> c[i] == t[i])
  }

  lemma SpacedAsSuffix(c: string, t: string, k: nat)
    requires SpacedAs(c, t) && k <= |t|
    ensures SpacedAs(c[k..], t[k..])
  {
    forall i | 0 <= i < |t| - k
      ensures (IsSpace(c[k..][i]) <==> !IsWordChar(t[k..][i])) && (IsWordChar(t[k..][i]) ==> c[k..][i] == t[k..][i])
    {
      assert c[k..][i] == c[k + i] && t[k..][i] == t[k + i];
    }
  }

  lemma {:induction false} TakeWordAsRun(c: string, t: string)
    requires SpacedAs(c, t)
    ensures TakeWord(c) == TakeWordChars(t)
    decreases |t|
  {
    if t != [] && IsWordChar(t[0]) {
      SpacedAsSuffix(c, t, 1);
      TakeWordAsRun(c[1..], t[1..]);
    }
  }

  /** Splitting such a `c` at whitespace gives the word-character runs of `t`. */
  lemma {:induction false} SplitWsAsRuns(c: string, t: string)
    requires SpacedAs(c, t)
    ensures SplitWs(c) == WordRuns(t)
    decreases |t|
  {
    if t != [] {
      if !IsWordChar(t[0]) {
        SpacedAsSuffix(c, t, 1);
        SplitWsAsRuns(c[1..], t[1..]);
      } else {
        TakeWordAsRun(c, t);
        var w := TakeWordChars(t);
        SpacedAsSuffix(c, t, |w|);
        SplitWsAsRuns(c[|w|..], t[|w|..]);
      }
    }
  }

  /**
   * The tokens are the maximal runs of word characters of the lowercased
   * value: non-empty, lowercase, made of word characters only, and
   * together exactly its word characters, in order.
   */
  lemma TokensRule(s: string)
    ensures Tokens(s) == WordRuns(Lower(s))
    ensures forall k :: 0 <= k < |Tokens(s)| ==>
              Tokens(s)[k] != [] &&
              forall i :: 0 <= i < |Tokens(s)[k]| ==> IsWordChar(Tokens(s)[k][i]) && !IsUpper(Tokens(s)[k][i])
    ensures Concat(Tokens(s)) == RemoveChars(Lower(s), NotWordChar)
  {
    var c := Cleaned(s);
    CleanedChars(s);
    SplitWsChars(c);
    forall k, i | 0 <= k < |Tokens(s)| && 0 <= i < |Tokens(s)[k]|
      ensures IsWordChar(Tokens(s)[k][i]) && !IsUpper(Tokens(s)[k][i])
    {
      var x := Tokens(s)[k][i];
      assert x in c && !IsSpace(x);
      var j :| 0 <= j < |c| && c[j] == x;
      assert IsWordChar(LowerChar(s[j]));
    }
    SplitWsConcat(c);
    RemoveCharsAgree(c, Lower(s), IsSpace, NotWordChar);
    SplitWsAsRuns(c, Lower(s));
  }
}
