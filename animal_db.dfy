// The animal matcher of src/animal_db_handler.py: shelter records with a
// stay interval, the two-stage unique-candidate rule that names the animal
// of each charge row, the reconciliation of a parsed invoice's rows against
// the shelter table, and the `cmp` key that ties a failed row back to its
// invoice file.

module AnimalDb {
  import opened Base
  import opened Dates
  import opened Parsers
  import opened Procedures
  import opened Classifier
  import opened Frames
  import opened NameTokens
  import Invoices

  /** The shelter code a row gets when no unique animal is found. */
  const ErrorCode := "ERROR_CODE"

  /** The exception `get_likely_animal` raises when `filtered_df` was never bound. */
  const UnboundFilter := "UnboundLocalError: cannot access local variable 'filtered_df'"

  /**
   * A row of the shelter export: name, code, intake day (DATEBROUGHTIN as a
   * day number) and length of stay in days.
   */
  datatype ShelterAnimal = ShelterAnimal(animalName: string, shelterCode: string, broughtIn: int, daysOnShelter: int)

  /**
   * A prepared shelter row: `name` is the lowercased ANIMALNAME, `dateIn`
   * and `endDate` are day numbers (DATEBROUGHTIN and `end_date`).
   */
  datatype Animal = Animal(animalName: string, shelterCode: string, name: string, dateIn: int, endDate: int)

  // ---------------------------------------------------------------
  // prep_animal_df
  // ---------------------------------------------------------------

  /** One row of `prep_animal_df`: the stay ends the day after intake plus the days on shelter. */
  function Prepare(a: ShelterAnimal): Animal {
    Animal(a.animalName, a.shelterCode, Lower(a.animalName), a.broughtIn, a.broughtIn + a.daysOnShelter + 1)
  }

  /** The prepared columns, row for row, before any reordering. */
  function PrepRows(raw: seq<ShelterAnimal>): (r: seq<Animal>)
    ensures |r| == |raw|
    ensures forall i :: 0 <= i < |raw| ==> r[i] == Prepare(raw[i])
  {
    seq(|raw|, i requires 0 <= i < |raw| => Prepare(raw[i]))
  }

  function EndDate(a: Animal): int { a.endDate }

  /** `prep_animal_df`: the prepared rows, sorted by `end_date`. */
  function PrepAnimalFrame(raw: seq<ShelterAnimal>): (r: seq<Animal>)
    ensures SortedBy(r, EndDate)
    ensures multiset(r) == multiset(PrepRows(raw))
  {
    SortBy(PrepRows(raw), EndDate)
  }

  /**
   * Every prepared row comes from one shelter row, with the name
   * lowercased and the stay running from intake to intake + days + 1.
   */
  lemma PrepAnimalFrameRows(raw: seq<ShelterAnimal>)
    ensures |PrepAnimalFrame(raw)| == |raw|
    ensures forall a :: a in PrepAnimalFrame(raw) <==> exists i :: 0 <= i < |raw| && a == Prepare(raw[i])
  {
    var r := PrepAnimalFrame(raw);
    var p := PrepRows(raw);
    assert |r| == |multiset(r)| == |multiset(p)| == |p|;
    forall a ensures a in r <==> exists i :: 0 <= i < |raw| && a == Prepare(raw[i]) {
      assert a in r <==> a in multiset(r);
      assert a in p <==> a in multiset(p);
      if a in p {
        var i :| 0 <= i < |p| && p[i] == a;
      }
    }
  }

  // ---------------------------------------------------------------
  // Name cleaning and matching
  // ---------------------------------------------------------------

  /** The characters `get_likely_animal` removes: `' ? , "`. */
  predicate LikelyStripped(c: char) { c == '\'' || c == '?' || c == ',' || c == '"' }

  /** The characters `get_probable_matches` removes: `? ' "`. */
  predicate ProbableStripped(c: char) { c == '?' || c == '\'' || c == '"' }

  /** `cleaned_animal`: lowercased, stripped of `' ? , "`, trimmed. */
  function CleanName(animal: string): (r: string)
    ensures forall i :: 0 <= i < |r| ==> !LikelyStripped(r[i]) && !IsUpper(r[i])
    ensures r != [] ==> !IsSpace(r[0]) && !IsSpace(r[|r| - 1])
  {
    var removed := RemoveChars(Lower(animal), LikelyStripped);
    RemovedHasNoUpper(animal, LikelyStripped);
    StripKeepsAll(removed, c => !LikelyStripped(c) && !IsUpper(c));
    Strip(removed)
  }

  /** Removing characters from a lowercased text leaves no capital behind. */
  lemma RemovedHasNoUpper(animal: string, drop: char -> bool)
    ensures forall i :: 0 <= i < |RemoveChars(Lower(animal), drop)| ==> !IsUpper(RemoveChars(Lower(animal), drop)[i])
  {
    var removed := RemoveChars(Lower(animal), drop);
    forall i | 0 <= i < |removed| ensures !IsUpper(removed[i]) {
      var k :| 0 <= k < |Lower(animal)| && Lower(animal)[k] == removed[i];
    }
  }

  /** The `re.sub` of `get_probable_matches`, for a given set of removed characters. */
  function ProbableClean(drop: char -> bool, animal: string): string {
    RemoveChars(Lower(animal), drop)
  }

  /**
   * Python's `re` as `Series.str.contains` uses it on the prepared names:
   * `compiles(p)` is false where compiling `p` raises `re.error`, and
   * `search(p, t)` says whether `p` is found in `t`. Names and patterns are
   * both lowercase, so the `case=False` of the newer calls changes nothing.
   */
  datatype NameRegex = NameRegex(compiles: string -> bool, search: (string, string) -> bool)

  /** The exception a name that is not a valid pattern raises. */
  const RegexError := "re.error: the name is not a valid regular expression"

  /** `r"\b" + r"\b|\b".join(tokens) + r"\b"`. */
  function TokenPattern(tokens: seq<string>): string {
    @"\b" + Join(tokens, @"\b|\b") + @"\b"
  }

  /** The exact stage: the cleaned name, read as a pattern, is found in the prepared name. */
  function ExactHit(re: NameRegex, c: string): Animal -> bool {
    (a: Animal) => re.search(c, a.name)
  }

  /** The token stage: the word pattern of the cleaned name is found in the prepared name. */
  function TokenHit(re: NameRegex, c: string): Animal -> bool {
    (a: Animal) => re.search(TokenPattern(SplitWs(c)), a.name)
  }

  // ---------------------------------------------------------------
  // The literal reading of the two stages
  // ---------------------------------------------------------------

  /** A character with a meaning of its own in a Python regular expression. */
  predicate IsMeta(c: char) {
    c == '.' || c == '^' || c == '$' || c == '*' || c == '+' || c == '?' || c == '{' || c == '}' ||
    c == '[' || c == ']' || c == '\\' || c == '|' || c == '(' || c == ')'
  }

  /** A pattern made of ordinary characters only. */
  predicate Literal(p: string) { forall i :: 0 <= i < |p| ==> !IsMeta(p[i]) }

  predicate AllLiteral(ts: seq<string>) { forall k :: 0 <= k < |ts| ==> Literal(ts[k]) }

  /** `\b{t}\b` matches at index `i` of `s`. */
  predicate WordAt(s: string, i: int, t: string) {
    0 <= i && i + |t| <= |s| && StartsAt(s, i, t) && WordBoundary(s, i) && WordBoundary(s, i + |t|)
  }

  /**
   * Some token occurs as a whole word. With no tokens the pattern is
   * `\b\b`, which matches wherever there is a word boundary.
   */
  predicate TokenMatch(name: string, tokens: seq<string>) {
    if tokens == [] then exists i :: 0 <= i <= |name| && WordBoundary(name, i)
    else exists k, i :: 0 <= k < |tokens| && 0 <= i <= |name| && WordAt(name, i, tokens[k])
  }

  /**
   * What `re` does with patterns free of metacharacters: such a pattern
   * compiles and is found exactly where the text contains it, and the
   * alternation of such words between `\b`s compiles and is found exactly
   * where one of the words occurs as a whole word.
   */
  ghost predicate ReadsLiterally(re: NameRegex) {
    (forall p :: Literal(p) ==> re.compiles(p)) &&
    (forall p, t :: Literal(p) ==> (re.search(p, t) <==> Contains(t, p))) &&
    (forall ts :: AllLiteral(ts) ==> re.compiles(TokenPattern(ts))) &&
    (forall ts, t :: AllLiteral(ts) ==> (re.search(TokenPattern(ts), t) <==> TokenMatch(t, ts)))
  }

  /** The exact stage read literally: the prepared name contains the cleaned name. */
  function ExactKeep(c: string): Animal -> bool {
    (a: Animal) => Contains(a.name, c)
  }

  /** The token stage read literally: one of the cleaned name's words is a whole word of the prepared name. */
  function TokenKeep(c: string): Animal -> bool {
    (a: Animal) => TokenMatch(a.name, SplitWs(c))
  }

  /**
   * On a name without metacharacters both stages compile and select the
   * rows their literal reading selects.
   */
  lemma LiteralHits(re: NameRegex, c: string, f: seq<Animal>)
    requires ReadsLiterally(re) && Literal(c)
    ensures re.compiles(c) && re.compiles(TokenPattern(SplitWs(c)))
    ensures Where(f, ExactHit(re, c)) == Where(f, ExactKeep(c))
    ensures Where(f, TokenHit(re, c)) == Where(f, TokenKeep(c))
  {
    SplitWsChars(c);
    assert AllLiteral(SplitWs(c)) by {
      forall k, i | 0 <= k < |SplitWs(c)| && 0 <= i < |SplitWs(c)[k]| ensures !IsMeta(SplitWs(c)[k][i]) {
        var j :| 0 <= j < |c| && c[j] == SplitWs(c)[k][i];
      }
    }
    WhereSame(f, ExactHit(re, c), ExactKeep(c));
    WhereSame(f, TokenHit(re, c), TokenKeep(c));
  }

  /** The `(ANIMALNAME, SHELTERCODE)` pair of a row. */
  function Key(a: Animal): (string, string) { (a.animalName, a.shelterCode) }

  // ---------------------------------------------------------------
  // The date window
  // ---------------------------------------------------------------

  /** The charge day falls within the stay, both ends included. */
  predicate InWindow(a: Animal, day: int) { a.dateIn <= day <= a.endDate }

  function Window(df: seq<Animal>, day: int): seq<Animal> {
    Where(df, (a: Animal) => InWindow(a, day))
  }

  /**
   * The rows the matcher searches: the stay window of the charge day when
   * a day is given and some stay covers it, otherwise the whole table.
   */
  function Candidates(date: Option<int>, df: seq<Animal>): seq<Animal> {
    if date.Some? && Window(df, date.value) != [] then Window(df, date.value) else df
  }

  /** The candidates are the covering stays when there are any, else the whole table. */
  lemma CandidatesRule(date: Option<int>, df: seq<Animal>)
    ensures forall a :: a in Candidates(date, df) ==> a in df
    ensures date.Some? && (exists a :: a in df && InWindow(a, date.value)) ==>
              forall a :: a in Candidates(date, df) <==> a in df && InWindow(a, date.value)
    ensures date.None? || (forall a :: a in df ==> !InWindow(a, date.value)) ==> Candidates(date, df) == df
  {
    if date.Some? {
      var w := Window(df, date.value);
      WhereMembers(df, (a: Animal) => InWindow(a, date.value));
      if w != [] {
        assert w[0] in w;
      }
    }
  }

  // ---------------------------------------------------------------
  // get_likely_animal
  // ---------------------------------------------------------------

  /**
   * A stage the rule reaches raises: the cleaned name does not compile, or
   * it has no unique hit and its word pattern does not compile.
   */
  predicate PickRaises(re: NameRegex, animal: string, f: seq<Animal>) {
    var c := CleanName(animal);
    !re.compiles(c) || (|Where(f, ExactHit(re, c))| != 1 && !re.compiles(TokenPattern(SplitWs(c))))
  }

  /** The two-stage rule over the candidate rows `f`. */
  function Pick(re: NameRegex, animal: string, f: seq<Animal>): Result<(string, string)> {
    var c := CleanName(animal);
    if !re.compiles(c) then Err(RegexError)
    else
      var exact := Where(f, ExactHit(re, c));
      if |exact| == 1 then Ok(Key(exact[0]))
      else if !re.compiles(TokenPattern(SplitWs(c))) then Err(RegexError)
      else
        var tok := Where(f, TokenHit(re, c));
        if |tok| == 1 then Ok(Key(tok[0])) else Ok((animal, ErrorCode))
  }

  /** The same rule with both stages read literally. */
  function LiteralPick(animal: string, f: seq<Animal>): (string, string) {
    var c := CleanName(animal);
    var exact := Where(f, ExactKeep(c));
    if |exact| == 1 then Key(exact[0])
    else
      var tok := Where(f, TokenKeep(c));
      if |tok| == 1 then Key(tok[0]) else (animal, ErrorCode)
  }

  /** A name without metacharacters never raises, and the rule is its literal reading. */
  lemma LiteralPickAgrees(re: NameRegex, animal: string, f: seq<Animal>)
    requires ReadsLiterally(re) && Literal(CleanName(animal))
    ensures Pick(re, animal, f) == Ok(LiteralPick(animal, f))
  {
    var c := CleanName(animal);
    LiteralHits(re, c, f);
    PickThrough(re, animal, c, f);
  }

  /** `Pick` and `LiteralPick` unfolded over a given cleaned name. */
  lemma PickThrough(re: NameRegex, animal: string, c: string, f: seq<Animal>)
    requires c == CleanName(animal)
    requires re.compiles(c) && re.compiles(TokenPattern(SplitWs(c)))
    requires Where(f, ExactHit(re, c)) == Where(f, ExactKeep(c))
    requires Where(f, TokenHit(re, c)) == Where(f, TokenKeep(c))
    ensures Pick(re, animal, f) == Ok(LiteralPick(animal, f))
  {
  }

  /** `get_likely_animal` with the window failing open to the whole table. */
  function LikelyAnimal(re: NameRegex, animal: string, date: Option<int>, df: seq<Animal>): Result<(string, string)> {
    Pick(re, animal, Candidates(date, df))
  }

  /**
   * The matching rule: the lookup raises exactly when a stage it reaches
   * does not compile; otherwise a unique exact hit among the candidates
   * wins, failing that a unique token hit, failing both the name as given
   * with the error code.
   */
  lemma LikelyAnimalRule(re: NameRegex, animal: string, date: Option<int>, df: seq<Animal>)
    ensures LikelyAnimal(re, animal, date, df).Err? <==> PickRaises(re, animal, Candidates(date, df))
    ensures var f := Candidates(date, df); var c := CleanName(animal);
            re.compiles(c) ==>
              forall i :: UniqueAt(f, ExactHit(re, c), i) ==> LikelyAnimal(re, animal, date, df) == Ok(Key(f[i]))
    ensures var f := Candidates(date, df); var c := CleanName(animal);
            re.compiles(c) && re.compiles(TokenPattern(SplitWs(c))) && (forall i :: !UniqueAt(f, ExactHit(re, c), i)) ==>
              forall i :: UniqueAt(f, TokenHit(re, c), i) ==> LikelyAnimal(re, animal, date, df) == Ok(Key(f[i]))
    ensures var f := Candidates(date, df); var c := CleanName(animal);
            re.compiles(c) && re.compiles(TokenPattern(SplitWs(c))) &&
            (forall i :: !UniqueAt(f, ExactHit(re, c), i)) && (forall i :: !UniqueAt(f, TokenHit(re, c), i)) ==>
              LikelyAnimal(re, animal, date, df) == Ok((animal, ErrorCode))
  {
    var f := Candidates(date, df);
    var c := CleanName(animal);
    WhereSingle(f, ExactHit(re, c));
    WhereSingle(f, TokenHit(re, c));
  }

  /** The answer is either a row of the table or the input name with the error code. */
  lemma LikelyAnimalFromTable(re: NameRegex, animal: string, date: Option<int>, df: seq<Animal>)
    ensures var r := LikelyAnimal(re, animal, date, df);
            r.Ok? ==> r.value == (animal, ErrorCode) || exists a :: a in df && r.value == Key(a)
  {
    var f := Candidates(date, df);
    var r := Pick(re, animal, f);
    PickFromRows(re, animal, f);
    CandidatesRule(date, df);
    if r.Ok? && r.value != (animal, ErrorCode) {
      var a :| a in f && r.value == Key(a);
      assert a in df;
    }
  }

  /** The rule answers with one of the rows it is given or with the error code. */
  lemma PickFromRows(re: NameRegex, animal: string, f: seq<Animal>)
    ensures var r := Pick(re, animal, f);
            r.Ok? ==> r.value == (animal, ErrorCode) || exists a :: a in f && r.value == Key(a)
  {
    var c := CleanName(animal);
    var exact := Where(f, ExactHit(re, c));
    var tok := Where(f, TokenHit(re, c));
    if |exact| == 1 {
      WhereMembers(f, ExactHit(re, c));
      assert exact[0] in exact;
    } else if |tok| == 1 {
      WhereMembers(f, TokenHit(re, c));
      assert tok[0] in tok;
    }
  }

  /**
   * `get_likely_animal` as written: `filtered_df` is bound only when a date
   * is given and its window is non-empty; otherwise the lookup raises.
   */
  function LikelyAnimalAsWritten(re: NameRegex, animal: string, date: Option<int>, df: seq<Animal>): Result<(string, string)> {
    if date.Some? && Window(df, date.value) != [] then Pick(re, animal, Window(df, date.value))
    else Err(UnboundFilter)
  }

  /**
   * The code as written raises exactly when there is no date, no stay
   * covers it, or a stage it reaches does not compile; when a stay covers
   * the date it is the fail-open rule.
   */
  lemma LikelyAnimalAsWrittenRaises(re: NameRegex, animal: string, date: Option<int>, df: seq<Animal>)
    ensures LikelyAnimalAsWritten(re, animal, date, df).Err? <==>
              date.None? || (forall a :: a in df ==> !InWindow(a, date.value)) ||
              PickRaises(re, animal, Window(df, date.value))
    ensures date.Some? && (exists a :: a in df && InWindow(a, date.value)) ==>
              LikelyAnimalAsWritten(re, animal, date, df) == LikelyAnimal(re, animal, date, df)
  {
    if date.Some? {
      WhereMembers(df, (a: Animal) => InWindow(a, date.value));
      if Window(df, date.value) == [] {
        forall a | a in df ensures !InWindow(a, date.value) {
          assert a !in Window(df, date.value);
        }
      } else {
        assert Window(df, date.value)[0] in Window(df, date.value);
      }
    }
    LikelyAnimalRule(re, animal, date, df);
  }

  /** A charge dated after the only stay: the code raises, the fail-open rule finds the dog. */
  lemma LikelyAnimalOutsideStay(re: NameRegex)
    requires ReadsLiterally(re)
    ensures var df := [Animal("Rex", "A1", "rex", 10, 20)];
            LikelyAnimalAsWritten(re, "Rex", Some(30), df) == Err(UnboundFilter) &&
            LikelyAnimal(re, "Rex", Some(30), df) == Ok(("Rex", "A1"))
  {
    var df := [Animal("Rex", "A1", "rex", 10, 20)];
    assert Window(df, 30) == [];
    assert Candidates(Some(30), df) == df;
    RexLiteral();
    LiteralPickAgrees(re, "Rex", df);
  }

  /** "Rex" cleans to a literal name that picks the one row named "rex". */
  lemma RexLiteral()
    ensures Literal(CleanName("Rex"))
    ensures LiteralPick("Rex", [Animal("Rex", "A1", "rex", 10, 20)]) == ("Rex", "A1")
  {
    CleanRex();
    RexUnique();
    LiteralPickUnique("Rex", [Animal("Rex", "A1", "rex", 10, 20)], 0);
  }

  lemma RexUnique()
    ensures UniqueAt([Animal("Rex", "A1", "rex", 10, 20)], ExactKeep("rex"), 0)
  {
    assert StartsAt("rex", 0, "rex");
  }

  /** A unique exact hit is the literal rule's answer. */
  lemma LiteralPickUnique(animal: string, f: seq<Animal>, i: int)
    requires UniqueAt(f, ExactKeep(CleanName(animal)), i)
    ensures LiteralPick(animal, f) == Key(f[i])
  {
    WhereSingle(f, ExactKeep(CleanName(animal)));
  }

  lemma CleanRex()
    ensures CleanName("Rex") == "rex"
  {
    assert LowerChar('R') == 'r';
    assert Lower("Rex") == "rex" by {
      assert Lower("x") == "x";
      assert Lower("ex") == "ex";
    }
    assert RemoveChars("rex", LikelyStripped) == "rex" by {
      assert RemoveChars("x", LikelyStripped) == "x";
      assert RemoveChars("ex", LikelyStripped) == "ex";
    }
    assert !IsSpace('r') && !IsSpace('x');
    assert TrimLeft("rex", IsSpace) == "rex";
    assert TrimRight("rex", IsSpace) == "rex";
  }

  // ---------------------------------------------------------------
  // get_probable_matches
  // ---------------------------------------------------------------

  /**
   * `get_probable_matches` for a given set of removed characters: a unique
   * exact hit among the candidates, else the token hits among them, else
   * the token hits in the whole table. The name is compiled as a pattern
   * first, the word pattern only when there is no unique exact hit.
   */
  function ProbableMatchesBy(re: NameRegex, drop: char -> bool, animal: string, df: seq<Animal>, date: Option<int>): Result<seq<Animal>> {
    var c := ProbableClean(drop, animal);
    if !re.compiles(c) then Err(RegexError)
    else
      var f := Candidates(date, df);
      var exact := Where(f, ExactHit(re, c));
      if |exact| == 1 then Ok(exact)
      else if !re.compiles(TokenPattern(SplitWs(c))) then Err(RegexError)
      else
        var tok := Where(f, TokenHit(re, c));
        if tok == [] then Ok(Where(df, TokenHit(re, c))) else Ok(tok)
  }

  function ProbableMatches(re: NameRegex, animal: string, df: seq<Animal>, date: Option<int>): Result<seq<Animal>> {
    ProbableMatchesBy(re, ProbableStripped, animal, df, date)
  }

  /**
   * The suggestions raise exactly when a stage reached does not compile;
   * otherwise they are rows of the table: the unique exact hit if there is
   * one; otherwise token hits, from the window when it has any, and none
   * at all only when no row of the whole table has a token hit.
   */
  lemma ProbableMatchesRule(re: NameRegex, drop: char -> bool, animal: string, df: seq<Animal>, date: Option<int>)
    ensures var c := ProbableClean(drop, animal); var f := Candidates(date, df);
            ProbableMatchesBy(re, drop, animal, df, date).Err? <==>
              !re.compiles(c) || (|Where(f, ExactHit(re, c))| != 1 && !re.compiles(TokenPattern(SplitWs(c))))
    ensures var r := ProbableMatchesBy(re, drop, animal, df, date);
            r.Ok? ==> forall a :: a in r.value ==> a in df
    ensures var c := ProbableClean(drop, animal); var f := Candidates(date, df);
            re.compiles(c) ==>
              forall i :: UniqueAt(f, ExactHit(re, c), i) ==> ProbableMatchesBy(re, drop, animal, df, date) == Ok([f[i]])
    ensures var c := ProbableClean(drop, animal); var f := Candidates(date, df);
            var r := ProbableMatchesBy(re, drop, animal, df, date);
            r.Ok? && (forall i :: !UniqueAt(f, ExactHit(re, c), i)) ==>
              (forall a :: a in r.value ==> TokenHit(re, c)(a)) &&
              ((exists a :: a in f && TokenHit(re, c)(a)) ==> forall a :: a in r.value ==> a in f) &&
              (r.value == [] <==> forall a :: a in df ==> !TokenHit(re, c)(a))
  {
    var c := ProbableClean(drop, animal);
    var f := Candidates(date, df);
    CandidatesRule(date, df);
    WhereSingle(f, ExactHit(re, c));
    WhereMembers(f, ExactHit(re, c));
    WhereMembers(f, TokenHit(re, c));
    WhereMembers(df, TokenHit(re, c));
    var tok := Where(f, TokenHit(re, c));
    if (forall i :: !UniqueAt(f, ExactHit(re, c), i)) && tok != [] {
      assert tok[0] in tok;
    }
    var all := Where(df, TokenHit(re, c));
    if all != [] {
      assert all[0] in all;
    }
  }

  /** A name without metacharacters never raises, and the suggestions are those of the literal reading. */
  lemma ProbableMatchesLiteral(re: NameRegex, drop: char -> bool, animal: string, df: seq<Animal>, date: Option<int>)
    requires ReadsLiterally(re) && Literal(ProbableClean(drop, animal))
    ensures var c := ProbableClean(drop, animal); var f := Candidates(date, df);
            var exact := Where(f, ExactKeep(c)); var tok := Where(f, TokenKeep(c));
            ProbableMatchesBy(re, drop, animal, df, date) ==
              Ok(if |exact| == 1 then exact else if tok == [] then Where(df, TokenKeep(c)) else tok)
  {
    LiteralHits(re, ProbableClean(drop, animal), Candidates(date, df));
    LiteralHits(re, ProbableClean(drop, animal), df);
  }

  // ---------------------------------------------------------------
  // match_animals
  // ---------------------------------------------------------------

  /**
   * `pd.to_datetime` on one COSTDATE text: the day number, or None where it
   * raises. Date parsing is a parameter of the model.
   */
  type DateParser = string -> Option<int>

  /**
   * The name lookup `match_animals` applies to each row: the row's
   * ANIMALNAME and charge day to `(ANIMALNAME, SHELTERCODE)`, or a raise.
   */
  type Lookup = (string, int) -> Result<(string, string)>

  /** The lookup as written: `get_likely_animal`, raising where no stay covers the day. */
  function AsWritten(re: NameRegex, animals: seq<Animal>): Lookup {
    (name: string, day: int) => LikelyAnimalAsWritten(re, name, Some(day), animals)
  }

  /** The corrected lookup: the window fails open to the whole table. */
  function FailOpen(re: NameRegex, animals: seq<Animal>): Lookup {
    (name: string, day: int) => LikelyAnimal(re, name, Some(day), animals)
  }

  /** A lookup whose every answer is a table row or the given name with the error code. */
  ghost predicate NamesFrom(look: Lookup, animals: seq<Animal>) {
    forall name, day :: look(name, day).Ok? ==>
      look(name, day).value == (name, ErrorCode) || exists a :: a in animals && look(name, day).value == Key(a)
  }

  /** Both lookups answer with a table row or the error code. */
  lemma LookupsNameFromTable(re: NameRegex, animals: seq<Animal>)
    ensures NamesFrom(AsWritten(re, animals), animals) && NamesFrom(FailOpen(re, animals), animals)
  {
    forall name, day ensures FailOpen(re, animals)(name, day).Ok? ==>
        FailOpen(re, animals)(name, day).value == (name, ErrorCode) ||
        exists a :: a in animals && FailOpen(re, animals)(name, day).value == Key(a) {
      LikelyAnimalFromTable(re, name, Some(day), animals);
    }
    forall name, day ensures AsWritten(re, animals)(name, day).Ok? ==>
        AsWritten(re, animals)(name, day).value == (name, ErrorCode) ||
        exists a :: a in animals && AsWritten(re, animals)(name, day).value == Key(a) {
      LikelyAnimalAsWrittenRaises(re, name, Some(day), animals);
      LikelyAnimalFromTable(re, name, Some(day), animals);
      CandidatesRule(Some(day), animals);
    }
  }

  /** A charge row the matcher can process: a COSTDATE that parses and a text ANIMALNAME. */
  predicate Matchable(toDate: DateParser, rec: ChargeRecord) {
    "COSTDATE" in rec && rec["COSTDATE"].Text? && toDate(rec["COSTDATE"].text).Some? &&
    "ANIMALNAME" in rec && rec["ANIMALNAME"].Text?
  }

  /** The `date` column: the day of COSTDATE (0 for a row that has none). */
  function RowDay(toDate: DateParser, rec: ChargeRecord): int {
    if Matchable(toDate, rec) then toDate(rec["COSTDATE"].text).value else 0
  }

  function DayKey(toDate: DateParser): ChargeRecord -> int {
    (rec: ChargeRecord) => RowDay(toDate, rec)
  }

  /** The lookup raises on this row. */
  predicate LookupRaises(toDate: DateParser, look: Lookup, rec: ChargeRecord) {
    Matchable(toDate, rec) && look(rec["ANIMALNAME"].text, RowDay(toDate, rec)).Err?
  }

  /**
   * One row of the `apply`: ANIMALNAME and ANIMALCODE from the lookup (a
   * row that is not matchable never reaches it; it is left as it is).
   */
  function Relabel(toDate: DateParser, look: Lookup, rec: ChargeRecord): Result<ChargeRecord> {
    if Matchable(toDate, rec) then
      var named := look(rec["ANIMALNAME"].text, RowDay(toDate, rec));
      if named.Err? then Err(named.error)
      else Ok(rec["ANIMALNAME" := Text(named.value.0)]["ANIMALCODE" := Text(named.value.1)])
    else Ok(rec)
  }

  /** The `apply` over the rows in order: the first lookup that raises ends it. */
  function Relabelled(toDate: DateParser, look: Lookup, rows: seq<ChargeRecord>): Result<seq<ChargeRecord>> {
    if rows == [] then Ok([])
    else
      var init := Relabelled(toDate, look, rows[..|rows| - 1]);
      var last := Relabel(toDate, look, rows[|rows| - 1]);
      if init.Err? then init
      else if last.Err? then Err(last.error)
      else Ok(init.value + [last.value])
  }

  /**
   * The `apply` raises exactly when the lookup raises on some row; when it
   * does not, row `i` of the result is row `i` relabelled.
   */
  lemma {:induction false} RelabelledRule(toDate: DateParser, look: Lookup, rows: seq<ChargeRecord>)
    ensures Relabelled(toDate, look, rows).Err? <==> exists i :: 0 <= i < |rows| && LookupRaises(toDate, look, rows[i])
    ensures var r := Relabelled(toDate, look, rows);
            r.Ok? ==> |r.value| == |rows| && forall i :: 0 <= i < |rows| ==> Relabel(toDate, look, rows[i]) == Ok(r.value[i])
  {
    if rows != [] {
      var n := |rows| - 1;
      var init := rows[..n];
      RelabelledRule(toDate, look, init);
      assert forall i :: 0 <= i < n ==> init[i] == rows[i];
      if Relabelled(toDate, look, init).Err? {
        var i :| 0 <= i < n && LookupRaises(toDate, look, init[i]);
        assert LookupRaises(toDate, look, rows[i]);
      }
    }
  }

  /** Once a prefix raises, the whole `apply` raises with the same error. */
  lemma {:induction false} RelabelledErrSticks(toDate: DateParser, look: Lookup, rows: seq<ChargeRecord>, k: nat)
    requires k <= |rows| && Relabelled(toDate, look, rows[..k]).Err?
    ensures Relabelled(toDate, look, rows) == Relabelled(toDate, look, rows[..k])
    decreases |rows| - k
  {
    if k < |rows| {
      assert rows[..k + 1][..k] == rows[..k];
      RelabelledErrSticks(toDate, look, rows, k + 1);
    } else {
      assert rows[..k] == rows;
    }
  }

  /** The filter of `match_animals`: not an "Other" row with a zero amount. */
  predicate Kept(rec: ChargeRecord) {
    !("COSTTYPE" in rec && rec["COSTTYPE"] == Text("Other") &&
      "COSTAMOUNT" in rec && rec["COSTAMOUNT"] == Amount(0.0))
  }

  /** The date conversion raises for the whole column when one row fails. */
  predicate AllMatchable(toDate: DateParser, rows: seq<ChargeRecord>) {
    forall i :: 0 <= i < |rows| ==> Matchable(toDate, rows[i])
  }

  /**
   * No row carries a COSTDATE, so the frame has no such column (an empty
   * frame has no columns at all) and `cost_df["COSTDATE"]` raises.
   */
  predicate NoDateColumn(rows: seq<ChargeRecord>) {
    forall i :: 0 <= i < |rows| ==> "COSTDATE" !in rows[i]
  }

  const MissingDateColumn := "KeyError: 'COSTDATE'"
  const DateError := "to_datetime: COSTDATE is not a date"

  /**
   * `match_animals` with a given lookup: convert the dates, relabel every
   * row, drop Other/0 rows, sort by date, drop duplicates.
   */
  function MatchAnimalsSpec(toDate: DateParser, look: Lookup, rows: seq<ChargeRecord>): Result<seq<ChargeRecord>> {
    if NoDateColumn(rows) then Err(MissingDateColumn)
    else if !AllMatchable(toDate, rows) then Err(DateError)
    else
      var rel := Relabelled(toDate, look, rows);
      if rel.Err? then Err(rel.error)
      else Ok(Dedup(SortBy(Where(rel.value, Kept), DayKey(toDate))))
  }

  /**
   * `match_animals` as written raises exactly when the frame is empty, some
   * COSTDATE does not parse, or some charge day has no covering stay, or a name does not
   * compile as a pattern in a stage its lookup reaches.
   */
  lemma MatchAnimalsRaises(re: NameRegex, toDate: DateParser, rows: seq<ChargeRecord>, animals: seq<Animal>)
    ensures MatchAnimalsSpec(toDate, AsWritten(re, animals), rows).Err? <==>
              rows == [] ||
              (exists i :: 0 <= i < |rows| && !Matchable(toDate, rows[i])) ||
              (exists i :: 0 <= i < |rows| && Matchable(toDate, rows[i]) &&
                 ((forall a :: a in animals ==> !InWindow(a, RowDay(toDate, rows[i]))) ||
                  PickRaises(re, rows[i]["ANIMALNAME"].text, Window(animals, RowDay(toDate, rows[i])))))
  {
    var look := AsWritten(re, animals);
    RelabelledRule(toDate, look, rows);
    if rows != [] && NoDateColumn(rows) {
      assert !Matchable(toDate, rows[0]);
    }
    forall i | 0 <= i < |rows| && Matchable(toDate, rows[i])
      ensures LookupRaises(toDate, look, rows[i]) <==>
                (forall a :: a in animals ==> !InWindow(a, RowDay(toDate, rows[i]))) ||
                PickRaises(re, rows[i]["ANIMALNAME"].text, Window(animals, RowDay(toDate, rows[i])))
    {
      LikelyAnimalAsWrittenRaises(re, rows[i]["ANIMALNAME"].text, Some(RowDay(toDate, rows[i])), animals);
    }
  }

  /**
   * With the corrected lookup only an empty frame, an unparseable COSTDATE
   * or a name that does not compile raises; with names free of
   * metacharacters, only the first two.
   */
  lemma MatchAnimalsFailOpenRaises(re: NameRegex, toDate: DateParser, rows: seq<ChargeRecord>, animals: seq<Animal>)
    ensures MatchAnimalsSpec(toDate, FailOpen(re, animals), rows).Err? <==>
              rows == [] ||
              (exists i :: 0 <= i < |rows| && !Matchable(toDate, rows[i])) ||
              (exists i :: 0 <= i < |rows| && Matchable(toDate, rows[i]) &&
                 PickRaises(re, rows[i]["ANIMALNAME"].text, Candidates(Some(RowDay(toDate, rows[i])), animals)))
    ensures ReadsLiterally(re) &&
            (forall i :: 0 <= i < |rows| && Matchable(toDate, rows[i]) ==> Literal(CleanName(rows[i]["ANIMALNAME"].text))) ==>
              (MatchAnimalsSpec(toDate, FailOpen(re, animals), rows).Err? <==> rows == [] || !AllMatchable(toDate, rows))
  {
    var look := FailOpen(re, animals);
    RelabelledRule(toDate, look, rows);
    if rows != [] && NoDateColumn(rows) {
      assert !Matchable(toDate, rows[0]);
    }
    forall i | 0 <= i < |rows| && Matchable(toDate, rows[i])
      ensures LookupRaises(toDate, look, rows[i]) <==>
                PickRaises(re, rows[i]["ANIMALNAME"].text, Candidates(Some(RowDay(toDate, rows[i])), animals))
      ensures ReadsLiterally(re) && Literal(CleanName(rows[i]["ANIMALNAME"].text)) ==> !LookupRaises(toDate, look, rows[i])
    {
      var name := rows[i]["ANIMALNAME"].text;
      LikelyAnimalRule(re, name, Some(RowDay(toDate, rows[i])), animals);
      if ReadsLiterally(re) && Literal(CleanName(name)) {
        LiteralPickAgrees(re, name, Candidates(Some(RowDay(toDate, rows[i])), animals));
      }
    }
  }

  /**
   * When nothing raises, the reconciled rows are the relabelled input rows
   * that are not Other/0, each once, in date order.
   */
  lemma MatchAnimalsResult(toDate: DateParser, look: Lookup, rows: seq<ChargeRecord>)
    requires MatchAnimalsSpec(toDate, look, rows).Ok?
    ensures var rel := Relabelled(toDate, look, rows);
            var r := MatchAnimalsSpec(toDate, look, rows).value;
            rel.Ok? && r == Dedup(SortBy(Where(rel.value, Kept), DayKey(toDate))) &&
            (forall i, j :: 0 <= i < j < |r| ==> r[i] != r[j]) &&
            SortedBy(r, DayKey(toDate)) &&
            (forall x :: x in r <==> Kept(x) && x in rel.value)
  {
    var rel := Relabelled(toDate, look, rows).value;
    var kept := Where(rel, Kept);
    var sorted := SortBy(kept, DayKey(toDate));
    WhereMembers(rel, Kept);
    DedupAfterSorted(sorted, [], DayKey(toDate));
    forall x ensures x in sorted <==> x in kept {
      assert x in sorted <==> x in multiset(sorted);
      assert x in kept <==> x in multiset(kept);
    }
  }

  /**
   * Every relabelled row names an animal of the table or carries the error
   * code, and keeps its other columns.
   */
  lemma RelabelNamesAnimal(toDate: DateParser, look: Lookup, rec: ChargeRecord, animals: seq<Animal>)
    requires NamesFrom(look, animals)
    requires Relabel(toDate, look, rec).Ok? && Matchable(toDate, rec)
    ensures var x := Relabel(toDate, look, rec).value;
            "ANIMALNAME" in x && "ANIMALCODE" in x &&
            ((x["ANIMALNAME"] == rec["ANIMALNAME"] && x["ANIMALCODE"] == Text(ErrorCode)) ||
             exists a :: a in animals && x["ANIMALNAME"] == Text(a.animalName) && x["ANIMALCODE"] == Text(a.shelterCode))
    ensures forall k :: k in rec && k != "ANIMALNAME" && k != "ANIMALCODE" ==>
              k in Relabel(toDate, look, rec).value && Relabel(toDate, look, rec).value[k] == rec[k]
  {
    var named := look(rec["ANIMALNAME"].text, RowDay(toDate, rec));
    if named.value != (rec["ANIMALNAME"].text, ErrorCode) {
      var a :| a in animals && named.value == Key(a);
    }
  }

  /** The row with the `date` column `pd.to_datetime` adds: its COSTDATE as a day. */
  function Dated(toDate: DateParser, rec: ChargeRecord): (r: ChargeRecord)
    ensures r.Keys == rec.Keys + {"date"} && r["date"] == Stamp(RowDay(toDate, rec))
    ensures forall k :: k in rec && k != "date" ==> r[k] == rec[k]
  {
    rec["date" := Stamp(RowDay(toDate, rec))]
  }

  /** The caller's frame after `cost_df["date"] = pd.to_datetime(cost_df["COSTDATE"])`. */
  function WithDates(toDate: DateParser, rows: seq<ChargeRecord>): (r: seq<ChargeRecord>)
    ensures |r| == |rows| && forall i :: 0 <= i < |rows| ==> r[i] == Dated(toDate, rows[i])
  {
    seq(|rows|, i requires 0 <= i < |rows| => Dated(toDate, rows[i]))
  }

  /**
   * `match_animals` on the caller's frame. A COSTDATE that does not parse
   * raises before the frame is touched. Otherwise every row of `costs`
   * gains the `date` column first; a lookup that raises leaves it so, and
   * when none raises ANIMALNAME/ANIMALCODE are overwritten as well. The
   * reconciled rows (from the filtered copy, without `date`) are returned.
   */
  method MatchAnimals(toDate: DateParser, look: Lookup, costs: array<ChargeRecord>)
    returns (r: Result<seq<ChargeRecord>>)
    modifies costs
    ensures r == MatchAnimalsSpec(toDate, look, old(costs[..]))
    ensures NoDateColumn(old(costs[..])) || !AllMatchable(toDate, old(costs[..])) ==> costs[..] == old(costs[..])
    ensures AllMatchable(toDate, old(costs[..])) && r.Err? ==> costs[..] == WithDates(toDate, old(costs[..]))
    ensures r.Ok? ==> Relabelled(toDate, look, old(costs[..])).Ok? &&
                      costs[..] == WithDates(toDate, Relabelled(toDate, look, old(costs[..])).value)
  {
    var rows := costs[..];
    if NoDateColumn(rows) {
      return Err(MissingDateColumn);
    }
    if !AllMatchable(toDate, rows) {
      return Err(DateError);
    }
    forall i | 0 <= i < costs.Length {
      costs[i] := Dated(toDate, rows[i]);
    }
    var rel := ApplyLookup(toDate, look, rows);
    if rel.Err? {
      assert costs[..] == WithDates(toDate, rows);
      return Err(rel.error);
    }
    forall i | 0 <= i < costs.Length {
      costs[i] := Dated(toDate, rel.value[i]);
    }
    assert costs[..] == WithDates(toDate, rel.value);
    r := Ok(Dedup(SortBy(Where(rel.value, Kept), DayKey(toDate))));
  }

  /** The `apply`: the lookup on each row in order, stopping at the first that raises. */
  method ApplyLookup(toDate: DateParser, look: Lookup, rows: seq<ChargeRecord>) returns (r: Result<seq<ChargeRecord>>)
    ensures r == Relabelled(toDate, look, rows)
    ensures r.Ok? ==> |r.value| == |rows|
  {
    var acc: seq<ChargeRecord> := [];
    var i := 0;
    while i < |rows|
      invariant 0 <= i <= |rows|
      invariant Relabelled(toDate, look, rows[..i]) == Ok(acc)
      invariant |acc| == i
    {
      assert rows[..i + 1][..i] == rows[..i];
      var x := Relabel(toDate, look, rows[i]);
      if x.Err? {
        RelabelledErrSticks(toDate, look, rows, i + 1);
        return Err(x.error);
      }
      acc := acc + [x.value];
      i := i + 1;
    }
    assert rows[..i] == rows;
    r := Ok(acc);
  }

  /**
   * A row built by the invoice parser is matchable by a date parser that
   * reads the `%m/%d/%Y` text it writes, and is dated by its charge date.
   */
  lemma ParsedRowMatchable(toDate: DateParser, hdr: Invoices.Header, date: Date, price: real, dog: string,
                           charge: string, capture: Capture, score: Scorer)
    requires Valid(date) && Valid(hdr.invoicedDate)
    requires toDate(FormatSlash(date)) == Some(Ordinal(date))
    ensures var out := Describe(charge, Invoices.BaseRecord(hdr, date, price, dog), date, capture, score);
            out.Ok? && Matchable(toDate, out.value) && RowDay(toDate, out.value) == Ordinal(date) &&
            out.value["ANIMALNAME"] == Text(dog)
  {
    Invoices.ChargeRecordContents(hdr, date, price, dog, charge, capture, score);
  }

  // ---------------------------------------------------------------
  // add_invoices_col
  // ---------------------------------------------------------------

  /** `\d{4}-\d{2}-\d{2}`. */
  predicate IsoText(t: string) {
    |t| == 10 && t[4] == '-' && t[7] == '-' &&
    IsDigit(t[0]) && IsDigit(t[1]) && IsDigit(t[2]) && IsDigit(t[3]) &&
    IsDigit(t[5]) && IsDigit(t[6]) && IsDigit(t[8]) && IsDigit(t[9])
  }

  /**
   * `{sep}(\d+){sep}(\d{4}-\d{2}-\d{2})` matched at the start of `t`.
   * Neither separator starts with a digit, so the digit group is the
   * maximal run.
   */
  function MatchKey(t: string, sep: string): (r: Option<(string, string)>)
    ensures r.Some? ==> r.value.0 != [] && AllDigits(r.value.0) && IsoText(r.value.1)
  {
    if |sep| <= |t| && t[..|sep|] == sep then
      var ds := TakeDigits(t[|sep|..]);
      var u := t[|sep|..][|ds|..];
      if ds != [] && |sep| + 10 <= |u| && u[..|sep|] == sep && IsoText(u[|sep|..|sep| + 10]) then
        Some((ds, u[|sep|..|sep| + 10]))
      else None
    else None
  }

  /** The pattern matched at index `i` of `s`. */
  function KeyAt(s: string, i: nat, sep: string): Option<(string, string)>
    requires i <= |s|
  {
    MatchKey(s[i..], sep)
  }

  /** `str.extract`: the groups of the leftmost match at or after `i`. */
  function ExtractKey(s: string, sep: string, i: nat): (r: Option<(string, string)>)
    requires i <= |s|
    ensures r.Some? ==> r.value.0 != [] && AllDigits(r.value.0) && IsoText(r.value.1)
    decreases |s| - i
  {
    if KeyAt(s, i, sep).Some? then KeyAt(s, i, sep)
    else if i == |s| then None
    else ExtractKey(s, sep, i + 1)
  }

  /** There is no key exactly when the pattern matches nowhere. */
  lemma {:induction false} ExtractKeyNone(s: string, sep: string, i: nat)
    requires i <= |s|
    ensures ExtractKey(s, sep, i).None? <==> forall m :: i <= m <= |s| ==> KeyAt(s, m, sep).None?
    decreases |s| - i
  {
    if KeyAt(s, i, sep).None? && i < |s| {
      ExtractKeyNone(s, sep, i + 1);
    }
  }

  /** A match at `k` with none before it is the leftmost match, and is the one extracted. */
  lemma {:induction false} ExtractKeyFrom(s: string, sep: string, i: nat, k: nat)
    requires i <= k <= |s| && KeyAt(s, k, sep).Some?
    requires forall m :: i <= m < k ==> KeyAt(s, m, sep).None?
    ensures ExtractKey(s, sep, i) == KeyAt(s, k, sep)
    decreases k - i
  {
    if i < k {
      ExtractKeyFrom(s, sep, i + 1, k);
    }
  }

  /** The `cmp` column: `invoice + "_" + invoice_date`, missing (NaN) without a match. */
  function CmpKey(s: string, sep: string): Option<string> {
    match ExtractKey(s, sep, 0)
    case Some(groups) => Some(groups.0 + "_" + groups.1)
    case None => None
  }

  /** Adds `invoice`, `invoice_date` and `cmp` to a row from the text in `column`. */
  function WithInvoiceCols(rec: ChargeRecord, column: string, sep: string): (r: ChargeRecord)
    ensures "cmp" in r <==> column in rec && rec[column].Text? && CmpKey(rec[column].text, sep).Some?
    ensures "cmp" in r ==> r["cmp"] == Text(CmpKey(rec[column].text, sep).value)
    ensures forall k :: k in rec && k != "invoice" && k != "invoice_date" && k != "cmp" ==> k in r && r[k] == rec[k]
  {
    var groups := if column in rec && rec[column].Text? then ExtractKey(rec[column].text, sep, 0) else None;
    match groups
    case Some(g) => rec["invoice" := Text(g.0)]["invoice_date" := Text(g.1)]["cmp" := Text(g.0 + "_" + g.1)]
    case None => rec - {"invoice", "invoice_date", "cmp"}
  }

  /**
   * `add_invoices_col`: the key comes from ` - id - date` in a failed row's
   * COSTDESCRIPTION and from `_id_date` in a file's name.
   */
  function AddInvoicesCol(fails: seq<ChargeRecord>, pdfs: seq<ChargeRecord>): (r: (seq<ChargeRecord>, seq<ChargeRecord>))
    ensures |r.0| == |fails| && |r.1| == |pdfs|
    ensures forall i :: 0 <= i < |fails| ==> r.0[i] == WithInvoiceCols(fails[i], DescriptionKey, " - ")
    ensures forall i :: 0 <= i < |pdfs| ==> r.1[i] == WithInvoiceCols(pdfs[i], "name", "_")
  {
    (seq(|fails|, i requires 0 <= i < |fails| => WithInvoiceCols(fails[i], DescriptionKey, " - ")),
     seq(|pdfs|, i requires 0 <= i < |pdfs| => WithInvoiceCols(pdfs[i], "name", "_")))
  }

  /**
   * The failed row's description and the file name of the same invoice give
   * the same key `id_YYYY-MM-DD`, for a numeric id, a clinic name with no
   * '-' and an abbreviation with no '_'.
   */
  lemma CmpKeysAgree(clinic: string, abrv: string, id: string, d: Date, rest: string)
    requires Valid(d) && id != [] && AllDigits(id)
    requires forall k :: 0 <= k < |clinic| ==> clinic[k] != '-'
    requires forall k :: 0 <= k < |abrv| ==> abrv[k] != '_'
    ensures CmpKey(Invoices.DescriptionPrefix(clinic, id, d) + rest, " - ") == Some(id + "_" + FormatIso(d))
    ensures CmpKey(Invoices.CanonicalName(abrv, id, d), "_") == Some(id + "_" + FormatIso(d))
  {
    DescriptionKeyFound(clinic, id, d, rest);
    NameKeyFound(abrv, id, d);
  }

  lemma DescriptionKeyFound(clinic: string, id: string, d: Date, rest: string)
    requires Valid(d) && id != [] && AllDigits(id)
    requires forall k :: 0 <= k < |clinic| ==> clinic[k] != '-'
    ensures CmpKey(Invoices.DescriptionPrefix(clinic, id, d) + rest, " - ") == Some(id + "_" + FormatIso(d))
  {
    var iso := FormatIso(d);
    var head := "[" + clinic;
    var desc := Invoices.DescriptionPrefix(clinic, id, d) + rest;
    assert desc == head + (" - " + (id + (" - " + (iso + ("] " + rest)))));
    KeyAtInvoice(head, " - ", id, iso, "] " + rest);
    NoKeyInClinic(clinic, " - " + (id + (" - " + (iso + ("] " + rest)))));
    ExtractKeyFrom(desc, " - ", 0, |head|);
  }

  /** A clinic name without '-' holds no ` - ` separator of its own. */
  lemma NoKeyInClinic(clinic: string, tail: string)
    requires forall k :: 0 <= k < |clinic| ==> clinic[k] != '-'
    requires tail != [] && tail[0] == ' '
    ensures forall m :: 0 <= m < |"[" + clinic| ==> KeyAt("[" + clinic + tail, m, " - ").None?
  {
    var s := "[" + clinic + tail;
    forall m | 0 <= m < |"[" + clinic| ensures KeyAt(s, m, " - ").None? {
      assert s[m + 1] != '-' by {
        if m < |clinic| {
          assert s[m + 1] == clinic[m];
        } else {
          assert s[m + 1] == tail[0];
        }
      }
      assert s[m..][1] == s[m + 1];
    }
  }

  lemma NameKeyFound(abrv: string, id: string, d: Date)
    requires Valid(d) && id != [] && AllDigits(id)
    requires forall k :: 0 <= k < |abrv| ==> abrv[k] != '_'
    ensures CmpKey(Invoices.CanonicalName(abrv, id, d), "_") == Some(id + "_" + FormatIso(d))
  {
    var iso := FormatIso(d);
    var name := Invoices.CanonicalName(abrv, id, d);
    assert name == abrv + ("_" + (id + ("_" + (iso + ".pdf"))));
    KeyAtInvoice(abrv, "_", id, iso, ".pdf");
    forall m | 0 <= m < |abrv| ensures KeyAt(name, m, "_").None? {
      assert name[m..][0] == name[m] == abrv[m];
    }
    ExtractKeyFrom(name, "_", 0, |abrv|);
  }

  /** The key pattern matches right after `head` in `head + sep + id + sep + iso + tail`. */
  lemma KeyAtInvoice(head: string, sep: string, id: string, iso: string, tail: string)
    requires sep != [] && !IsDigit(sep[0])
    requires id != [] && AllDigits(id) && IsoText(iso)
    ensures KeyAt(head + (sep + (id + (sep + (iso + tail)))), |head|, sep) == Some((id, iso))
  {
    var r2 := sep + (iso + tail);
    var r1 := id + r2;
    var r0 := sep + r1;
    var s := head + r0;
    assert s[|head|..] == r0;
    assert r0[..|sep|] == sep && r0[|sep|..] == r1;
    TakeDigitsPrefix(id, r2);
    assert r1[|id|..] == r2;
    assert r2[..|sep|] == sep;
    assert r2[|sep|..|sep| + 10] == iso;
  }

  lemma {:induction false} TakeDigitsPrefix(ds: string, tail: string)
    requires AllDigits(ds) && tail != [] && !IsDigit(tail[0])
    ensures TakeDigits(ds + tail) == ds
  {
    if ds != [] {
      assert (ds + tail)[1..] == ds[1..] + tail;
      TakeDigitsPrefix(ds[1..], tail);
    } else {
      assert ds + tail == tail;
    }
  }
}
