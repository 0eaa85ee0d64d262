// src/features/name_generator.py: candidate animal names.  Names already
// used by shelter animals are cut into tokens (`NameTokens`); a list of
// (name, gender) lines is read; the candidates no animal uses are kept,
// capitalized and without repeats.  The file and the shelter database are
// not modelled: their lines and rows come in as values.

module NameGenerator {
  import opened Base
  import opened Frames
  import opened NameTokens

  // ---------------------------------------------------------------
  // extract_extra_names
  // ---------------------------------------------------------------

  /** A row after `explode`: its other columns and one token, or NaN when the value had none. */
  datatype Exploded<R> = Exploded(row: R, name: Option<string>)

  /** How a value is cut into tokens. */
  type Tokenizer = string -> seq<string>

  /** One row exploded over the tokens `ts` of its value. */
  function ExplodeRow<R>(row: R, ts: seq<string>): (r: seq<Exploded<R>>)
    ensures ts == [] ==> r == [Exploded(row, None)]
    ensures ts != [] ==> |r| == |ts| && forall i :: 0 <= i < |ts| ==> r[i] == Exploded(row, Some(ts[i]))
  {
    if ts == [] then [Exploded(row, None)]
    else seq(|ts|, i requires 0 <= i < |ts| => Exploded(row, Some(ts[i])))
  }

  /** `df.explode(col)` after the column was split by `tok`. */
  function Explode<R>(rows: seq<(R, string)>, tok: Tokenizer): seq<Exploded<R>> {
    if rows == [] then []
    else var n := |rows| - 1; Explode(rows[..n], tok) + ExplodeRow(rows[n].0, tok(rows[n].1))
  }

  /** `df[col] != ''`: NaN passes. */
  predicate NotEmptyName<R>(e: Exploded<R>) { e.name != Some([]) }

  /** `extract_extra_names`: split, explode, drop the empty names, renumber. */
  function ExtractExtraNames<R>(rows: seq<(R, string)>): seq<Exploded<R>> {
    Where(Explode(rows, Tokens), NotEmptyName)
  }

  /** The tokens of all rows, in row order. */
  function AllTokens<R>(rows: seq<(R, string)>, tok: Tokenizer): seq<string> {
    if rows == [] then [] else var n := |rows| - 1; AllTokens(rows[..n], tok) + tok(rows[n].1)
  }

  /** The names that are not NaN. */
  function SomeNames<R>(es: seq<Exploded<R>>): seq<string> {
    if es == [] then []
    else
      var n := |es| - 1;
      SomeNames(es[..n]) + (match es[n].name case None => [] case Some(x) => [x])
  }

  lemma {:induction false} SomeNamesAppend<R>(a: seq<Exploded<R>>, b: seq<Exploded<R>>)
    ensures SomeNames(a + b) == SomeNames(a) + SomeNames(b)
    decreases |b|
  {
    if b == [] {
      assert a + b == a;
    } else {
      var n := |b| - 1;
      assert (a + b)[..|a| + n] == a + b[..n] && (a + b)[|a| + n] == b[n];
      SomeNamesAppend(a, b[..n]);
    }
  }

  /** The names of the first `k` rows exploded from one row are its first `k` tokens. */
  lemma {:induction false} SomeNamesRow<R>(row: R, ts: seq<string>, k: nat)
    requires k <= |ts|
    ensures SomeNames(ExplodeRow(row, ts)[..k]) == ts[..k]
    decreases k
  {
    var e := ExplodeRow(row, ts);
    if ts == [] {
      assert e[..0] == [] && ts[..0] == [];
    } else if k > 0 {
      SomeNamesRow(row, ts, k - 1);
      assert e[..k][..k - 1] == e[..k - 1];
      assert ts[..k] == ts[..k - 1] + [ts[k - 1]];
    } else {
      assert e[..0] == [] && ts[..0] == [];
    }
  }

  /** The value of the row has no token. */
  function Untokened<R>(tok: Tokenizer): ((R, string)) -> bool {
    (r: (R, string)) => tok(r.1) == []
  }

  /** The names of one exploded row are its tokens. */
  lemma ExplodeRowNames<R>(row: R, ts: seq<string>)
    ensures SomeNames(ExplodeRow(row, ts)) == ts
  {
    SomeNamesRow(row, ts, |ts|);
    if ts != [] {
      assert ExplodeRow(row, ts)[..|ts|] == ExplodeRow(row, ts);
    } else {
      assert ExplodeRow(row, ts) == ExplodeRow(row, ts)[..0] + [Exploded(row, None)];
    }
    assert ts[..|ts|] == ts;
  }

  /** The names of the exploded rows are the tokens of the rows, in order. */
  lemma {:induction false} ExplodeNames<R>(rows: seq<(R, string)>, tok: Tokenizer)
    ensures SomeNames(Explode(rows, tok)) == AllTokens(rows, tok)
    decreases |rows|
  {
    if rows != [] {
      var n := |rows| - 1;
      ExplodeNames(rows[..n], tok);
      SomeNamesAppend(Explode(rows[..n], tok), ExplodeRow(rows[n].0, tok(rows[n].1)));
      ExplodeRowNames(rows[n].0, tok(rows[n].1));
    }
  }

  /** A row with tokens gives one row per token; a row without gives one NaN row. */
  lemma {:induction false} ExplodeLength<R(!new)>(rows: seq<(R, string)>, tok: Tokenizer)
    ensures |Explode(rows, tok)| == |AllTokens(rows, tok)| + |Where(rows, Untokened<R>(tok))|
    decreases |rows|
  {
    if rows != [] {
      var n := |rows| - 1;
      ExplodeLength(rows[..n], tok);
      assert rows == rows[..n] + [rows[n]];
      WhereAppend(rows[..n], [rows[n]], Untokened<R>(tok));
    }
  }

  /** A tokenizer that gives no empty token explodes to no empty name. */
  lemma {:induction false} ExplodeNonEmpty<R>(rows: seq<(R, string)>, tok: Tokenizer, i: nat)
    requires forall v, k :: 0 <= k < |tok(v)| ==> tok(v)[k] != []
    requires i < |Explode(rows, tok)|
    ensures NotEmptyName(Explode(rows, tok)[i])
    decreases |rows|
  {
    var n := |rows| - 1;
    var head := Explode(rows[..n], tok);
    if i < |head| {
      ExplodeNonEmpty(rows[..n], tok, i);
    } else {
      assert Explode(rows, tok)[i] == ExplodeRow(rows[n].0, tok(rows[n].1))[i - |head|];
    }
  }

  /**
   * `extract_extra_names` keeps every exploded row (tokens are never empty
   * and NaN is not ''), its names are the tokens of the rows in order, and
   * a row with no token leaves exactly one NaN row.
   */
  lemma ExtractExtraNamesRule<R(!new)>(rows: seq<(R, string)>)
    ensures ExtractExtraNames(rows) == Explode(rows, Tokens)
    ensures SomeNames(ExtractExtraNames(rows)) == AllTokens(rows, Tokens)
    ensures |ExtractExtraNames(rows)| == |AllTokens(rows, Tokens)| + |Where(rows, Untokened<R>(Tokens))|
  {
    forall v, k | 0 <= k < |Tokens(v)| ensures Tokens(v)[k] != [] {
      TokensRule(v);
    }
    ExplodeNames(rows, Tokens);
    ExplodeLength(rows, Tokens);
    forall i | 0 <= i < |Explode(rows, Tokens)| ensures NotEmptyName(Explode(rows, Tokens)[i]) {
      ExplodeNonEmpty(rows, Tokens, i);
    }
    WhereAll(Explode(rows, Tokens), NotEmptyName);
  }

  // ---------------------------------------------------------------
  // get_disjoint
  // ---------------------------------------------------------------

  /** `str.upper` on one character (ASCII letters only). */
  function UpperChar(c: char): (r: char)
    ensures IsLowerLetter(c) ==> IsUpper(r) && LowerChar(r) == c
    ensures !IsLowerLetter(c) ==> r == c
  {
    if IsLowerLetter(c) then (c as int - 32) as char else c
  }

  /** `str.capitalize`: the first character upper-cased, the rest lower-cased. */
  function Capitalize(s: string): (r: string)
    ensures |r| == |s|
    ensures r != [] ==> !IsLowerLetter(r[0]) && r[0] == UpperChar(s[0])
    ensures forall i :: 1 <= i < |s| ==> r[i] == LowerChar(s[i])
    ensures Lower(r) == Lower(s)
  {
    if s == [] then []
    else
      var r := [UpperChar(s[0])] + Lower(s[1..]);
      assert Lower(r)[1..] == Lower(Lower(s[1..])) by { assert r[1..] == Lower(s[1..]); }
      LowerIdempotent(s[1..]);
      assert Lower(r) == [LowerChar(s[0])] + Lower(s[1..]);
      assert Lower(s) == [LowerChar(s[0])] + Lower(s[1..]);
      r
  }

  /** Each candidate name lowercased. */
  function LowerAll(names: seq<string>): (r: seq<string>)
    ensures |r| == |names| && forall i :: 0 <= i < |names| ==> r[i] == Lower(names[i])
  {
    if names == [] then [] else [Lower(names[0])] + LowerAll(names[1..])
  }

  /** Each name capitalized. */
  function CapitalizeAll(names: seq<string>): (r: seq<string>)
    ensures |r| == |names| && forall i :: 0 <= i < |names| ==> r[i] == Capitalize(names[i])
  {
    if names == [] then [] else [Capitalize(names[0])] + CapitalizeAll(names[1..])
  }

  /** The lowercased candidates none of `known`, capitalized, first occurrences only. */
  function DisjointFrom(known: seq<string>, candidates: seq<string>): seq<string> {
    Dedup(CapitalizeAll(Where(LowerAll(candidates), (x: string) => x !in known)))
  }

  /**
   * `get_disjoint`: the candidates that are no token of an animal's name,
   * lowercased, capitalized, first occurrences only.
   */
  function GetDisjoint<R>(animals: seq<(R, string)>, candidates: seq<string>): seq<string> {
    DisjointFrom(SomeNames(ExtractExtraNames(animals)), candidates)
  }

  /**
   * A name is in the result exactly when it is the capitalized form of a
   * lowercased candidate that is not known; no name appears twice.
   */
  lemma DisjointFromRule(known: seq<string>, candidates: seq<string>)
    ensures var r := DisjointFrom(known, candidates);
            (forall x :: x in r <==>
               exists i :: 0 <= i < |candidates| && Lower(candidates[i]) !in known &&
                           x == Capitalize(Lower(candidates[i]))) &&
            (forall i, j :: 0 <= i < j < |r| ==> r[i] != r[j])
  {
    var keep := (x: string) => x !in known;
    var unused := Where(LowerAll(candidates), keep);
    WhereMembers(LowerAll(candidates), keep);
    forall x | x in CapitalizeAll(unused)
      ensures exists i :: 0 <= i < |candidates| && Lower(candidates[i]) !in known &&
                          x == Capitalize(Lower(candidates[i]))
    {
      DisjointFromSound(known, candidates, unused, x);
    }
    forall i | 0 <= i < |candidates| && Lower(candidates[i]) !in known
      ensures Capitalize(Lower(candidates[i])) in CapitalizeAll(unused)
    {
      assert LowerAll(candidates)[i] in unused;
      var k :| 0 <= k < |unused| && unused[k] == LowerAll(candidates)[i];
      assert CapitalizeAll(unused)[k] == Capitalize(Lower(candidates[i]));
    }
  }

  /** A name kept comes from a candidate that is not known. */
  lemma DisjointFromSound(known: seq<string>, candidates: seq<string>, unused: seq<string>, x: string)
    requires forall y :: y in unused ==> y in LowerAll(candidates) && y !in known
    requires x in CapitalizeAll(unused)
    ensures exists i :: 0 <= i < |candidates| && Lower(candidates[i]) !in known &&
                        x == Capitalize(Lower(candidates[i]))
  {
    var caps := CapitalizeAll(unused);
    var k :| 0 <= k < |caps| && caps[k] == x;
    var lowered := LowerAll(candidates);
    assert unused[k] in lowered;
    var i :| 0 <= i < |lowered| && lowered[i] == unused[k];
    assert Lower(candidates[i]) !in known && x == Capitalize(Lower(candidates[i]));
  }

  /**
   * `get_disjoint` keeps a candidate exactly when its lowercase form is
   * no token of any animal's name, and returns each kept name once,
   * capitalized.
   */
  lemma GetDisjointRule<R(!new)>(animals: seq<(R, string)>, candidates: seq<string>)
    ensures var r := GetDisjoint(animals, candidates);
            (forall x :: x in r <==>
               exists i :: 0 <= i < |candidates| && Lower(candidates[i]) !in AllTokens(animals, Tokens) &&
                           x == Capitalize(Lower(candidates[i]))) &&
            (forall i, j :: 0 <= i < j < |r| ==> r[i] != r[j])
  {
    ExtractExtraNamesRule(animals);
    DisjointFromRule(SomeNames(ExtractExtraNames(animals)), candidates);
  }
}

// `load_names`: the (name, gender) pairs of the names file, one per line.
module NameFile {
  import opened Base

  /** The gender of a line with a name only. */
  const UnknownGender := "Unknown"

  /** The error when no pair was read yet: `n` and `g` are unbound. */
  const Unbound := "UnboundLocalError"

  /** One line of the names file: a name and a gender. */
  datatype Names = Names(name: string, gender: string)

  /**
   * The pair a line gives: one word is a name of unknown gender, two are a
   * name and a gender, anything else leaves the previous pair in place.
   */
  function LinePair(line: string, previous: Option<Names>): Option<Names> {
    var split := SplitWs(line);
    if |split| == 1 then Some(Names(split[0], UnknownGender))
    else if |split| == 2 then Some(Names(split[0], split[1]))
    else previous
  }

  /** The line has one or two words. */
  predicate Pairs(line: string) { 1 <= |SplitWs(line)| <= 2 }

  /** The last pair appended, if any. */
  function LastPair(names: seq<Names>): Option<Names> {
    if names == [] then None else Some(names[|names| - 1])
  }

  /**
   * The pairs `load_names` collects from the lines; a line of another length
   * before any pair was read raises, since `n` and `g` are not yet bound.
   */
  function LoadedNames(lines: seq<string>): Result<seq<Names>>
    decreases |lines|
  {
    if lines == [] then Ok([])
    else
      var n := |lines| - 1;
      match LoadedNames(lines[..n])
      case Err(e) => Err(e)
      case Ok(names) =>
        match LinePair(lines[n], LastPair(names))
        case None => Err(Unbound)
        case Some(p) => Ok(names + [p])
  }

  /**
   * Loading raises exactly when the first line has neither one nor two
   * words; otherwise there is one pair per line, read from a line of one or
   * two words and repeated from the line before for any other line.
   */
  lemma {:induction false} LoadedNamesRule(lines: seq<string>)
    ensures LoadedNames(lines).Err? <==> lines != [] && !Pairs(lines[0])
    ensures LoadedNames(lines).Ok? ==>
              var names := LoadedNames(lines).value;
              |names| == |lines| &&
              forall i :: 0 <= i < |lines| ==>
                (Pairs(lines[i]) ==> Some(names[i]) == LinePair(lines[i], None)) &&
                (!Pairs(lines[i]) ==> 0 < i && names[i] == names[i - 1])
    decreases |lines|
  {
    if lines != [] {
      var n := |lines| - 1;
      var init := lines[..n];
      LoadedNamesRule(init);
      if n > 0 { assert init[0] == lines[0]; }
      var before := LoadedNames(init);
      if before.Ok? {
        var names := before.value;
        if LoadedNames(lines).Ok? {
          var all := LoadedNames(lines).value;
          forall i | 0 <= i < |lines|
            ensures (Pairs(lines[i]) ==> Some(all[i]) == LinePair(lines[i], None)) &&
                    (!Pairs(lines[i]) ==> 0 < i && all[i] == all[i - 1])
          {
            if i < n { assert init[i] == lines[i] && all[i] == names[i]; }
          }
        }
      }
    }
  }

  /**
   * `load_names` over the lines of the file: each line is split; a line of
   * one or two words sets the pair; the current pair is appended for every
   * line.
   */
  method LoadNames(lines: seq<string>) returns (r: Result<seq<Names>>)
    ensures r == LoadedNames(lines)
  {
    var all: seq<Names> := [];
    var current: Option<Names> := None;
    var i := 0;
    while i < |lines|
      invariant 0 <= i <= |lines|
      invariant LoadedNames(lines[..i]) == Ok(all) && current == LastPair(all)
    {
      LoadedStep(lines, i);
      var split := SplitWs(lines[i]);
      if |split| == 1 {
        current := Some(Names(split[0], UnknownGender));
      } else if |split| == 2 {
        current := Some(Names(split[0], split[1]));
      }
      if current.None? {
        r := Err(Unbound);
        LoadedNamesStays(lines, i + 1);
        return;
      }
      all := all + [current.value];
      i := i + 1;
    }
    assert lines[..i] == lines;
    r := Ok(all);
  }

  /** One more line. */
  lemma LoadedStep(lines: seq<string>, i: nat)
    requires i < |lines|
    ensures LoadedNames(lines[..i + 1]) ==
            match LoadedNames(lines[..i])
            case Err(e) => Err(e)
            case Ok(names) =>
              match LinePair(lines[i], LastPair(names))
              case None => Err(Unbound)
              case Some(p) => Ok(names + [p])
  {
    assert lines[..i + 1][..i] == lines[..i] && lines[..i + 1][i] == lines[i];
  }

  /** Once loading a prefix raises, loading the whole raises the same. */
  lemma {:induction false} LoadedNamesStays(lines: seq<string>, i: nat)
    requires i <= |lines| && LoadedNames(lines[..i]).Err?
    ensures LoadedNames(lines) == LoadedNames(lines[..i])
    decreases |lines| - i
  {
    if i < |lines| {
      assert lines[..i + 1][..i] == lines[..i];
      LoadedNamesStays(lines, i + 1);
    } else {
      assert lines[..i] == lines;
    }
  }
}
