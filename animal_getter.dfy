// The older matcher of src/animal_getter.py. Its `get_likely_animal` is the
// rule of AnimalDb word for word; what differs is that `prep_animal_df`
// leaves the rows in their input order, `get_probable_matches` keeps `?`
// in the name it searches for, and `match_animals` keeps duplicate rows.

module AnimalGetter {
  import opened Base
  import opened Classifier
  import opened Frames
  import opened AnimalDb

  // ---------------------------------------------------------------
  // prep_animal_df
  // ---------------------------------------------------------------

  /**
   * `prep_animal_df`: the same columns as the newer version, but the result
   * of `sort_values` is discarded, so the rows keep the export's order.
   */
  function PrepAnimalFrame(raw: seq<ShelterAnimal>): (r: seq<Animal>)
    ensures |r| == |raw|
    ensures forall i :: 0 <= i < |raw| ==> r[i].animalName == raw[i].animalName && r[i].shelterCode == raw[i].shelterCode
    ensures forall i :: 0 <= i < |raw| ==> r[i].dateIn == raw[i].broughtIn && r[i].endDate == raw[i].broughtIn + raw[i].daysOnShelter + 1
  {
    PrepRows(raw)
  }

  /** Both versions prepare the same rows; only the newer one orders them by `end_date`. */
  lemma PrepSameRows(raw: seq<ShelterAnimal>)
    ensures multiset(PrepAnimalFrame(raw)) == multiset(AnimalDb.PrepAnimalFrame(raw))
    ensures SortedBy(AnimalDb.PrepAnimalFrame(raw), EndDate)
  {
  }

  /** A stay that ends earlier listed second stays second: the frame is not sorted. */
  lemma PrepKeepsOrder()
    ensures var raw := [ShelterAnimal("Rex", "A1", 10, 5), ShelterAnimal("Bo", "A2", 10, 1)];
            PrepAnimalFrame(raw)[0].endDate == 16 && PrepAnimalFrame(raw)[1].endDate == 12 &&
            !SortedBy(PrepAnimalFrame(raw), EndDate)
  {
    var raw := [ShelterAnimal("Rex", "A1", 10, 5), ShelterAnimal("Bo", "A2", 10, 1)];
    var r := PrepAnimalFrame(raw);
    assert EndDate(r[0]) > EndDate(r[1]);
  }

  // ---------------------------------------------------------------
  // get_probable_matches
  // ---------------------------------------------------------------

  /** The characters this version removes from the name: `'` and `"` only. */
  predicate LegacyStripped(c: char) { c == '\'' || c == '"' }

  /** `get_probable_matches`: the newer rule, with `?` left in the searched name. */
  function ProbableMatches(re: NameRegex, animal: string, df: seq<Animal>, date: Option<int>): Result<seq<Animal>> {
    ProbableMatchesBy(re, LegacyStripped, animal, df, date)
  }

  /**
   * The older cleaning keeps every `?` of the name, and removing those
   * afterwards gives the newer cleaning.
   */
  lemma LegacyKeepsQuestionMarks(animal: string)
    ensures '?' in Lower(animal) ==> '?' in ProbableClean(LegacyStripped, animal)
    ensures '?' in Lower(animal) ==> !Literal(ProbableClean(LegacyStripped, animal))
    ensures ProbableClean(ProbableStripped, animal) ==
            RemoveChars(ProbableClean(LegacyStripped, animal), (c: char) => c == '?')
  {
    if '?' in Lower(animal) {
      RemoveCharsKeeps(Lower(animal), LegacyStripped, '?');
      var c := ProbableClean(LegacyStripped, animal);
      var i :| 0 <= i < |c| && c[i] == '?';
      assert IsMeta(c[i]);
    }
    RemoveCharsTwice(Lower(animal), LegacyStripped, (c: char) => c == '?', ProbableStripped);
  }

  /** A character that is not removed survives the removal. */
  lemma {:induction false} RemoveCharsKeeps(s: string, drop: char -> bool, x: char)
    requires x in s && !drop(x)
    ensures x in RemoveChars(s, drop)
  {
    if s[0] != x {
      RemoveCharsKeeps(s[1..], drop, x);
    }
  }

  /** Removing by one predicate and then another is removing by either. */
  lemma {:induction false} RemoveCharsTwice(s: string, p: char -> bool, q: char -> bool, pq: char -> bool)
    requires forall c :: pq(c) == (p(c) || q(c))
    ensures RemoveChars(RemoveChars(s, p), q) == RemoveChars(s, pq)
  {
    if s != [] {
      RemoveCharsTwice(s[1..], p, q, pq);
      if !p(s[0]) {
        assert RemoveChars(s, p) == [s[0]] + RemoveChars(s[1..], p);
        assert ([s[0]] + RemoveChars(s[1..], p))[1..] == RemoveChars(s[1..], p);
      }
    }
  }

  // ---------------------------------------------------------------
  // match_animals
  // ---------------------------------------------------------------

  /**
   * `match_animals` with a given lookup: convert the dates, relabel every
   * row, drop Other/0 rows, sort by date; duplicates stay.
   */
  function MatchAnimalsSpec(toDate: DateParser, look: Lookup, rows: seq<ChargeRecord>): Result<seq<ChargeRecord>> {
    if NoDateColumn(rows) then Err(MissingDateColumn)
    else if !AllMatchable(toDate, rows) then Err(DateError)
    else
      var rel := Relabelled(toDate, look, rows);
      if rel.Err? then Err(rel.error)
      else Ok(SortBy(Where(rel.value, Kept), DayKey(toDate)))
  }

  /**
   * Both versions raise on the same rows. When nothing raises, the
   * reconciled rows are the relabelled rows that are not Other/0, each as
   * often as in the input, in date order, and the newer version is this
   * result with its duplicates removed.
   */
  lemma MatchAnimalsResult(toDate: DateParser, look: Lookup, rows: seq<ChargeRecord>)
    ensures MatchAnimalsSpec(toDate, look, rows).Err? <==> AnimalDb.MatchAnimalsSpec(toDate, look, rows).Err?
    ensures var rel := Relabelled(toDate, look, rows);
            MatchAnimalsSpec(toDate, look, rows).Ok? ==>
              var r := MatchAnimalsSpec(toDate, look, rows).value;
              rel.Ok? && r == SortBy(Where(rel.value, Kept), DayKey(toDate)) &&
              SortedBy(r, DayKey(toDate)) &&
              multiset(r) == multiset(Where(rel.value, Kept)) &&
              (forall x :: x in r <==> Kept(x) && x in rel.value) &&
              AnimalDb.MatchAnimalsSpec(toDate, look, rows) == Ok(Dedup(r))
  {
    var rel := Relabelled(toDate, look, rows);
    if !NoDateColumn(rows) && AllMatchable(toDate, rows) && rel.Ok? {
      var kept := Where(rel.value, Kept);
      var sorted := SortBy(kept, DayKey(toDate));
      WhereMembers(rel.value, Kept);
      forall x ensures x in sorted <==> x in kept {
        assert x in sorted <==> x in multiset(sorted);
        assert x in kept <==> x in multiset(kept);
      }
    }
  }

  /**
   * `match_animals` on the caller's frame, as in `AnimalDb.MatchAnimals`:
   * the frame gains the `date` column once the dates parse, and
   * ANIMALNAME/ANIMALCODE are overwritten only when no lookup raised; the
   * reconciled rows are returned.
   */
  method MatchAnimals(toDate: DateParser, look: Lookup, costs: array<ChargeRecord>)
    returns (r: Result<seq<ChargeRecord>>)
    modifies costs
    ensures r == MatchAnimalsSpec(toDate, look, old(costs[..]))
    ensures NoDateColumn(old(costs[..])) || !AllMatchable(toDate, old(costs[..])) ==> costs[..] == old(costs[..])
    ensures AllMatchable(toDate, old(costs[..])) && r.Err? ==> costs[..] == WithDates(toDate, old(costs[..]))
    ensures r.Ok? ==> Relabelled(toDate, look, old(costs[..])).Ok? &&
                      costs[..] == WithDates(toDate, Relabelled(toDate, look, old(costs[..])).value)
  {
    var rows := costs[..];
    if NoDateColumn(rows) {
      return Err(MissingDateColumn);
    }
    if !AllMatchable(toDate, rows) {
      return Err(DateError);
    }
    forall i | 0 <= i < costs.Length {
      costs[i] := Dated(toDate, rows[i]);
    }
    var rel := ApplyLookup(toDate, look, rows);
    if rel.Err? {
      assert costs[..] == WithDates(toDate, rows);
      return Err(rel.error);
    }
    forall i | 0 <= i < costs.Length {
      costs[i] := Dated(toDate, rel.value[i]);
    }
    assert costs[..] == WithDates(toDate, rel.value);
    r := Ok(SortBy(Where(rel.value, Kept), DayKey(toDate)));
  }
}
