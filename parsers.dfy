/**
 * The cost categories and the three sub-classifiers that name a test,
 * a vaccine or a medication from a charge line, each falling back to a
 * fuzzy pick among its fixed list of options.
 */
module Parsers {
  import opened Base

  /** The COSTTYPE categories and the strings written to the charge table. */
  datatype Cost =
    | Examination | Emergency | Surgery | Medication | Food | Test
    | Vaccination | SpayNeuter | Supplies | Grooming | Microchip
    | Bandage | Euthanasia | Other
  {
    function Name(): string {
      match this
      case Examination => "Examination"
      case Emergency => "Emergency Room"
      case Surgery => "Surgery"
      case Medication => "Medication"
      case Food => "Food"
      case Test => "Medical Test"
      case Vaccination => "Vaccination"
      case SpayNeuter => "Spay/Neuter"
      case Supplies => "Supplies"
      case Grooming => "Grooming"
      case Microchip => "Microchip"
      case Bandage => "Bandages"
      case Euthanasia => "Euthanasia"
      case Other => "Other"
    }
  }

  /** Distinct categories are written as distinct strings. */
  lemma CostNameInjective(a: Cost, b: Cost)
    requires a.Name() == b.Name()
    ensures a == b
  {
  }

  // ---------------------------------------------------------------
  // Fuzzy fallback
  // ---------------------------------------------------------------

  /** A similarity score in 0..100 between a query and a choice (the scorer is not modelled). */
  type Scorer = (string, string) -> int

  /** `extractOne`'s `score_cutoff`. */
  const Cutoff: int := 51

  /** Index of the first choice with the highest score. */
  function BestIndex(text: string, choices: seq<string>, score: Scorer): (k: nat)
    requires choices != []
    ensures k < |choices|
    ensures forall j :: 0 <= j < |choices| ==> score(text, choices[j]) <= score(text, choices[k])
    ensures forall j :: 0 <= j < k ==> score(text, choices[j]) < score(text, choices[k])
  {
    if |choices| == 1 then 0
    else
      var k := BestIndex(text, choices[1..], score);
      assert forall j :: 1 <= j < |choices| ==> choices[j] == choices[1..][j - 1];
      if score(text, choices[0]) >= score(text, choices[k + 1]) then 0 else k + 1
  }

  /**
   * `find_best_match`: the first best-scoring choice when its score reaches
   * the cutoff, and "" otherwise (including an empty choice list, where the
   * library returns nothing and the unpacking error is swallowed).
   */
  function FindBestMatch(text: string, choices: seq<string>, score: Scorer): (r: string)
    ensures r == "" || r in choices
    ensures (forall j :: 0 <= j < |choices| ==> score(text, choices[j]) < Cutoff) ==> r == ""
    ensures (exists j :: 0 <= j < |choices| && score(text, choices[j]) >= Cutoff) ==>
              exists k :: 0 <= k < |choices| && r == choices[k] && score(text, choices[k]) >= Cutoff &&
                (forall j :: 0 <= j < |choices| ==> score(text, choices[j]) <= score(text, choices[k])) &&
                (forall j :: 0 <= j < k ==> score(text, choices[j]) < score(text, choices[k]))
  {
    if choices == [] then ""
    else
      var k := BestIndex(text, choices, score);
      if score(text, choices[k]) >= Cutoff then choices[k] else ""
  }

  // ---------------------------------------------------------------
  // Vaccine
  // ---------------------------------------------------------------

  const VaccineOptions: seq<string> :=
    ["DHLPP", "DHPP", "Bordetella", "Leptospirosis", "Parainfluenza", "Leptospira", "Giardia", "Torigen"]

  /** The filler words removed before a vaccine is named, in alternation order. */
  const VaccineFillers: seq<string> :=
    ["vaccine", "vaccination", "litter", "1st", "2nd", "3rd", "booster", "adult", "puppy", "no lepto"]

  predicate NonEmptyWords(alts: seq<string>) {
    forall k :: 0 <= k < |alts| ==> alts[k] != []
  }

  /** Index of the first alternative that starts `s`, or -1 (the regex tries them in order). */
  function FirstAltAt(s: string, alts: seq<string>): (k: int)
    ensures -1 <= k < |alts|
    ensures k >= 0 ==> StartsAt(s, 0, alts[k]) && forall j :: 0 <= j < k ==> !StartsAt(s, 0, alts[j])
    ensures k == -1 ==> forall j :: 0 <= j < |alts| ==> !StartsAt(s, 0, alts[j])
  {
    if alts == [] then -1
    else if StartsAt(s, 0, alts[0]) then 0
    else
      var k := FirstAltAt(s, alts[1..]);
      assert forall j :: 1 <= j < |alts| ==> alts[j] == alts[1..][j - 1];
      if k < 0 then -1 else k + 1
  }

  /** `re.sub("(a1|a2|...)", "", s)`: one left-to-right pass deleting leftmost-first matches. */
  function RemoveWords(s: string, alts: seq<string>): (r: string)
    requires NonEmptyWords(alts)
    ensures |r| <= |s|
    decreases |s|
  {
    if s == [] then []
    else
      var k := FirstAltAt(s, alts);
      if k >= 0 then RemoveWords(s[|alts[k]|..], alts)
      else [s[0]] + RemoveWords(s[1..], alts)
  }

  /** Text with none of the words in it passes through the deletion unchanged. */
  lemma {:induction false} RemoveWordsAbsent(s: string, alts: seq<string>)
    requires NonEmptyWords(alts)
    requires forall k :: 0 <= k < |alts| ==> !Contains(s, alts[k])
    ensures RemoveWords(s, alts) == s
    decreases |s|
  {
    if s != [] {
      forall k | 0 <= k < |alts|
        ensures !Contains(s[1..], alts[k])
      {
        if Contains(s[1..], alts[k]) {
          ContainsSuffix(s, alts[k], 1);
        }
      }
      RemoveWordsAbsent(s[1..], alts);
    }
  }

  /** The text a vaccine line is named from: lowercased, fillers deleted, trimmed. */
  function VaccineText(t: string): string {
    Strip(RemoveWords(Lower(t), VaccineFillers))
  }

  /** `Vaccine.parse`. */
  function VaccineParse(t: string, score: Scorer): (r: string)
    ensures r == "" || r in VaccineOptions
  {
    var txt := VaccineText(t);
    if Contains(txt, "dhpp") || Contains(txt, "da2pp") || Contains(txt, "da2p-pv") then "DHPP"
    else if Contains(txt, "kennel cough") then "Bordetella"
    else FindBestMatch(txt, VaccineOptions, score)
  }

  /**
   * On a line that contains no filler word, a DHPP spelling names the
   * vaccine "DHPP" and otherwise "kennel cough" names it "Bordetella",
   * before any fuzzy matching.
   */
  lemma VaccineSpecialCases(t: string, score: Scorer)
    requires forall k :: 0 <= k < |VaccineFillers| ==> !Contains(Lower(t), VaccineFillers[k])
    ensures Contains(Lower(t), "dhpp") || Contains(Lower(t), "da2pp") || Contains(Lower(t), "da2p-pv") ==>
              VaccineParse(t, score) == "DHPP"
    ensures (Contains(Lower(t), "kennel cough") && !Contains(Lower(t), "dhpp") && !Contains(Lower(t), "da2pp")
             && !Contains(Lower(t), "da2p-pv")) ==> VaccineParse(t, score) == "Bordetella"
  {
    RemoveWordsAbsent(Lower(t), VaccineFillers);
    if Contains(Lower(t), "dhpp") {
      StripKeepsContains(Lower(t), IsSpace, "dhpp");
    } else if Contains(Lower(t), "da2pp") {
      StripKeepsContains(Lower(t), IsSpace, "da2pp");
    } else if Contains(Lower(t), "da2p-pv") {
      StripKeepsContains(Lower(t), IsSpace, "da2p-pv");
    } else if Contains(Lower(t), "kennel cough") && !Contains(Lower(t), "da2pp") && !Contains(Lower(t), "da2p-pv") {
      StripKeepsContains(Lower(t), IsSpace, "kennel cough");
      StripByOnlyShrinks(Lower(t), IsSpace, "dhpp");
      StripByOnlyShrinks(Lower(t), IsSpace, "da2pp");
      StripByOnlyShrinks(Lower(t), IsSpace, "da2p-pv");
    }
  }

  // ---------------------------------------------------------------
  // Test
  // ---------------------------------------------------------------

  const TestOptions: seq<string> :=
    ["Biopsy", "Bloodwork", "Cytology", "Opthamalogy", "Fecal", "Fungal", "Glucose", "Heartworm",
     "Lactate", "Lyme", "Parvo", "Radiology", "Skin Scrape", "Ultrasound", "Wood's Light", "Urine",
     "Tonometry", "Echocardiogram"]

  /** One keyword rule: any of the alternatives found in the text names the result. */
  datatype Rule = Rule(alternatives: seq<string>, result: string)

  /** The keyword rules of `Test.parse` in the order they are tried (`x-?ray` spelled out). */
  const TestRules: seq<Rule> := [
    Rule(["biopsy"], "Biopsy"),
    Rule(["cbc", "cpl", "idx"], "Bloodwork"),
    Rule(["hw"], "Heartworm"),
    Rule(["tear", "eye", "opth"], "Opthamalogy"),
    Rule(["ua"], "Urine"),
    Rule(["gi", "gastro"], "Fecal"),
    Rule(["tick", "lyme"], "Lyme"),
    Rule(["x-ray", "xray"], "Radiology")
  ]

  /** The result of the first rule that fires, if any. */
  function FirstRule(rules: seq<Rule>, t: string): Option<string> {
    if rules == [] then None
    else if ContainsAny(t, rules[0].alternatives) then Some(rules[0].result)
    else FirstRule(rules[1..], t)
  }

  /** A rule table answers exactly when some rule fires, with the result of the first one that does. */
  lemma {:induction false} FirstRuleSpec(rules: seq<Rule>, t: string)
    ensures FirstRule(rules, t).Some? <==> exists k :: 0 <= k < |rules| && ContainsAny(t, rules[k].alternatives)
    ensures FirstRule(rules, t).Some? ==>
              (exists k :: 0 <= k < |rules| && ContainsAny(t, rules[k].alternatives) &&
                FirstRule(rules, t).value == rules[k].result &&
                forall j :: 0 <= j < k ==> !ContainsAny(t, rules[j].alternatives))
  {
    if rules != [] && !ContainsAny(t, rules[0].alternatives) {
      FirstRuleSpec(rules[1..], t);
      assert forall j :: 1 <= j < |rules| ==> rules[j] == rules[1..][j - 1];
      if FirstRule(rules, t).Some? {
        var k :| 0 <= k < |rules[1..]| && ContainsAny(t, rules[1..][k].alternatives) &&
                 FirstRule(rules[1..], t).value == rules[1..][k].result &&
                 forall j :: 0 <= j < k ==> !ContainsAny(t, rules[1..][j].alternatives);
        assert ContainsAny(t, rules[k + 1].alternatives);
      }
    } else if rules != [] {
      assert ContainsAny(t, rules[0].alternatives);
    }
  }

  /** The keyword checks of `Test.parse` as written, one after another, on the text as given. */
  function TestKeyword(t: string): Option<string> {
    if Contains(t, "biopsy") then Some("Biopsy")
    else if ContainsAny(t, ["cbc", "cpl", "idx"]) then Some("Bloodwork")
    else if Contains(t, "hw") then Some("Heartworm")
    else if ContainsAny(t, ["tear", "eye", "opth"]) then Some("Opthamalogy")
    else if Contains(t, "ua") then Some("Urine")
    else if ContainsAny(t, ["gi", "gastro"]) then Some("Fecal")
    else if ContainsAny(t, ["tick", "lyme"]) then Some("Lyme")
    else if ContainsAny(t, ["x-ray", "xray"]) then Some("Radiology")
    else None
  }

  /** `Test.parse`: a keyword hit, else the fuzzy pick among the test options. */
  function TestParse(t: string, score: Scorer): string {
    match TestKeyword(t)
    case Some(name) => name
    case None => FindBestMatch(t, TestOptions, score)
  }

  /**
   * The keyword checks are the first-match-wins rule table: the first rule
   * whose keyword occurs decides and later rules are never consulted.
   */
  lemma {:induction false} TestKeywordIsFirstRule(t: string)
    ensures TestKeyword(t) == FirstRule(TestRules, t)
  {
    assert ContainsAny(t, ["biopsy"]) == Contains(t, "biopsy") by { assert ["biopsy"][1..] == []; }
    assert ContainsAny(t, ["hw"]) == Contains(t, "hw") by { assert ["hw"][1..] == []; }
    assert ContainsAny(t, ["ua"]) == Contains(t, "ua") by { assert ["ua"][1..] == []; }
    TestRulesHead(t);
    TestRulesTail(t);
  }

  lemma TestRulesHead(t: string)
    ensures FirstRule(TestRules, t) ==
      if ContainsAny(t, ["biopsy"]) then Some("Biopsy")
      else if ContainsAny(t, ["cbc", "cpl", "idx"]) then Some("Bloodwork")
      else if ContainsAny(t, ["hw"]) then Some("Heartworm")
      else if ContainsAny(t, ["tear", "eye", "opth"]) then Some("Opthamalogy")
      else FirstRule(TestRules[4..], t)
  {
    var r := TestRules;
    assert r[0..] == r;
    assert r[0] == Rule(["biopsy"], "Biopsy") && r[1] == Rule(["cbc", "cpl", "idx"], "Bloodwork");
    assert r[2] == Rule(["hw"], "Heartworm") && r[3] == Rule(["tear", "eye", "opth"], "Opthamalogy");
    FirstRuleStep(r, 0, t);
    FirstRuleStep(r, 1, t);
    FirstRuleStep(r, 2, t);
    FirstRuleStep(r, 3, t);
  }

  lemma TestRulesTail(t: string)
    ensures FirstRule(TestRules[4..], t) ==
      if ContainsAny(t, ["ua"]) then Some("Urine")
      else if ContainsAny(t, ["gi", "gastro"]) then Some("Fecal")
      else if ContainsAny(t, ["tick", "lyme"]) then Some("Lyme")
      else if ContainsAny(t, ["x-ray", "xray"]) then Some("Radiology")
      else None
  {
    var r := TestRules;
    assert r[4] == Rule(["ua"], "Urine") && r[5] == Rule(["gi", "gastro"], "Fecal");
    assert r[6] == Rule(["tick", "lyme"], "Lyme") && r[7] == Rule(["x-ray", "xray"], "Radiology");
    FirstRuleStep(r, 4, t);
    FirstRuleStep(r, 5, t);
    FirstRuleStep(r, 6, t);
    FirstRuleStep(r, 7, t);
    assert r[8..] == [];
  }

  lemma FirstRuleStep(rules: seq<Rule>, k: int, t: string)
    requires 0 <= k < |rules|
    ensures FirstRule(rules[k..], t) ==
              if ContainsAny(t, rules[k].alternatives) then Some(rules[k].result) else FirstRule(rules[k + 1..], t)
  {
    assert rules[k..][1..] == rules[k + 1..];
  }

  /** Every test name is one of the listed options, or "". */
  lemma TestParseInOptions(t: string, score: Scorer)
    ensures TestParse(t, score) == "" || TestParse(t, score) in TestOptions
  {
    if Contains(t, "biopsy") {
      assert TestOptions[0] == "Biopsy";
    } else if ContainsAny(t, ["cbc", "cpl", "idx"]) {
      assert TestOptions[1] == "Bloodwork";
    } else if Contains(t, "hw") {
      assert TestOptions[7] == "Heartworm";
    } else if ContainsAny(t, ["tear", "eye", "opth"]) {
      assert TestOptions[3] == "Opthamalogy";
    } else if Contains(t, "ua") {
      assert TestOptions[15] == "Urine";
    } else if ContainsAny(t, ["gi", "gastro"]) {
      assert TestOptions[4] == "Fecal";
    } else if ContainsAny(t, ["tick", "lyme"]) {
      assert TestOptions[9] == "Lyme";
    } else if ContainsAny(t, ["x-ray", "xray"]) {
      assert TestOptions[11] == "Radiology";
    } else {
      assert TestKeyword(t).None?;
    }
  }

  /** Earlier rules shadow later ones: a heartworm line that also mentions "ua" is still Heartworm. */
  lemma TestShadowing(t: string, score: Scorer)
    requires Contains(t, "hw") && Contains(t, "ua")
    requires !Contains(t, "biopsy") && !ContainsAny(t, ["cbc", "cpl", "idx"])
    ensures TestParse(t, score) == "Heartworm"
  {
  }

  // ---------------------------------------------------------------
  // Medication
  // ---------------------------------------------------------------

  /**
   * The medication options as the list literal builds them: a missing
   * comma makes Python concatenate "Electrolytes" and "Vitamin" into the
   * single entry "Electrolytes" + "Vitamin".  The literal is written here in
   * blocks of fourteen so that membership can be decided block by block.
   */
  const MedicationBlock0: seq<string> :=
    ["Adequan", "Amikacin", "Aminocaproic", "Amoxicillin", "Amoxiclay", "Ampicillin", "Apoquel",
     "Bedinvetmab", "Bravecto", "Bravecto", "Bupivacaine", "Buprenorphine", "Capromorelin",
     "Capstar"]
  const MedicationBlock1: seq<string> :=
    ["Carprofen", "Cefazolin", "Cefovecin", "Cefpoderm", "Cerenia", "Cevofecin", "Clavacillin",
     "Clavamax", "Clindamycin", "Codeine", "Cyclosporine", "Cytopoint", "Denamarin",
     "Dexamethasone"]
  const MedicationBlock2: seq<string> :=
    ["Dextrose", "Dipenhydramine", "Dorzolamide", "Doxycycline", "Enrofloxacin", "Famotidine",
     "Fetanyl", "Furosemide", "Gabapentin", "Galliprant", "Gentamicin", "Heartgard",
     "Hydromorphone", "Insulin"]
  const MedicationBlock3: seq<string> :=
    ["Interceptor Plus", "Ketoconazole", "Latantoprost", "Levothyroxine", "Librela",
     "Marbofloxacin", "Meclizine", "Meloxicam", "Methadone", "Metronidazole", "Miconazole",
     "Mometamax", "Moxidectin", "Neopolybacitracin"]
  const MedicationBlock4: seq<string> :=
    ["Nexgard", "Optixcare", "Panacur", "Pantoprazole", "Pimobendan", "Polyflex", "Ponazuril",
     "Prazpyrfeb", "Prednisone", "Pyrantel", "Revolution", "Rimadyl", "Sentinel", "Sevoflurane"]
  const MedicationBlock5: seq<string> :=
    ["Simparica", "Simplicef", "Sucralfate", "Sulfadimethoxine", "Tacrolimus", "Tobramycin",
     "Trazodone", "Tresaderm", "Triamcinolone", "Ursodiol", "Electrolytes" + "Vitamin"]

  const MedicationOptions: seq<string> :=
    MedicationBlock0 + MedicationBlock1 + MedicationBlock2 + MedicationBlock3 + MedicationBlock4 + MedicationBlock5

  /** `Medication.parse`. */
  function MedicationParse(t: string, score: Scorer): (r: string)
    ensures r == "" || r == "Electrolytes" || r == "Vitamin" || r in MedicationOptions
    ensures Contains(t, "kcl") ==> r == "Electrolytes"
    ensures !Contains(t, "kcl") && (Contains(t, "vit k1") || Contains(t, "vitamin")) ==> r == "Vitamin"
  {
    if Contains(t, "kcl") then "Electrolytes"
    else if Contains(t, "vit k1") || Contains(t, "vitamin") then "Vitamin"
    else FindBestMatch(t, MedicationOptions, score)
  }

  /** Because of the missing comma the option list holds the fused entry "ElectrolytesVitamin"... */
  lemma MedicationOptionsFused()
    ensures "ElectrolytesVitamin" in MedicationOptions
  {
    assert MedicationBlock5[|MedicationBlock5| - 1] == "ElectrolytesVitamin";
  }

  /** ... and neither "Electrolytes" nor "Vitamin", the two names the special cases return. */
  lemma MedicationSpecialNamesUnlisted()
    ensures "Electrolytes" !in MedicationOptions && "Vitamin" !in MedicationOptions
  {
    MedicationBlocksLackElectrolytes();
    MedicationBlocksLackVitamin();
  }

  lemma MedicationBlocksLackElectrolytes()
    ensures "Electrolytes" !in MedicationBlock0 && "Electrolytes" !in MedicationBlock1
    ensures "Electrolytes" !in MedicationBlock2 && "Electrolytes" !in MedicationBlock3
    ensures "Electrolytes" !in MedicationBlock4 && "Electrolytes" !in MedicationBlock5
  {
    var w := "Electrolytes";
    LacksByLetter(MedicationBlock0, w, 1);
    LacksByLetter(MedicationBlock1, w, 1);
    LacksByLetter(MedicationBlock2, w, 1);
    LacksByLetter(MedicationBlock3, w, 1);
    LacksByLetter(MedicationBlock4, w, 1);
    LacksByLetter(MedicationBlock5, w, 1);
  }

  lemma MedicationBlocksLackVitamin()
    ensures "Vitamin" !in MedicationBlock0 && "Vitamin" !in MedicationBlock1
    ensures "Vitamin" !in MedicationBlock2 && "Vitamin" !in MedicationBlock3
    ensures "Vitamin" !in MedicationBlock4 && "Vitamin" !in MedicationBlock5
  {
    var w := "Vitamin";
    LacksByLetter(MedicationBlock0, w, 0);
    LacksByLetter(MedicationBlock1, w, 0);
    LacksByLetter(MedicationBlock2, w, 0);
    LacksByLetter(MedicationBlock3, w, 0);
    LacksByLetter(MedicationBlock4, w, 0);
    LacksByLetter(MedicationBlock5, w, 0);
  }

  /** A word is missing from a list whose entries all differ from it in length or in their `j`-th letter. */
  lemma LacksByLetter(block: seq<string>, w: string, j: nat)
    requires j < |w|
    requires forall i :: 0 <= i < |block| ==> |block[i]| != |w| || block[i][j] != w[j]
    ensures w !in block
  {
  }
}
