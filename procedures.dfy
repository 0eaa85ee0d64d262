/**
 * The charge-line patterns of the `Regex` table, the ordered
 * PROCEDURE_MAP that ties each pattern to a cost category and its
 * structured fields, and the non-invoice filename filters.  Both copies
 * of the table in the repository are identical, so one model serves both.
 * Each pattern is given as the set of strings `re.search` finds it in.
 */
module Procedures {
  import opened Base
  import opened Parsers

  datatype Pattern =
    | SuppliesPat | SurgeryPat | TestPat | VaccinePat | MedDosePat | MedRangeLbPat
    | FoodPat | MedOtherPat | MedOther2Pat | MicrochipPat | GroomingPat | ExamPat
    | BandagePat | SpayNeuterPat | EuthanasiaPat

  // ---------------------------------------------------------------
  // The non-literal pieces of the patterns
  // ---------------------------------------------------------------

  /** `\b` at position `i`: exactly one of the neighbouring characters is a word character. */
  predicate WordBoundary(s: string, i: int)
    requires 0 <= i <= |s|
  {
    (i > 0 && IsWordChar(s[i - 1])) != (i < |s| && IsWordChar(s[i]))
  }

  predicate DigitAt(s: string, i: int) { 0 <= i < |s| && IsDigit(s[i]) }

  /** `\d+? ?ct\b`: a digit, an optional space, "ct", and a word boundary. */
  predicate CountSuffix(s: string) {
    exists k :: 0 <= k < |s| && IsDigit(s[k]) &&
      ((StartsAt(s, k + 1, "ct") && WordBoundary(s, k + 3)) ||
       (StartsAt(s, k + 1, " ct") && WordBoundary(s, k + 4)))
  }

  /** `\w+tomy`. */
  predicate TomySuffix(s: string) {
    exists k :: 1 <= k <= |s| - 4 && StartsAt(s, k, "tomy") && IsWordChar(s[k - 1])
  }

  /** `x.?ray`: an "x", at most one character other than a newline, then "ray". */
  predicate XRay(s: string) {
    Contains(s, "xray") ||
    exists k :: 0 <= k && k + 1 < |s| && s[k] == 'x' && s[k + 1] != '\n' && StartsAt(s, k + 2, "ray")
  }

  /** `\d+\.?\d*?` can end just before `e`: a digit there, or a point after a digit. */
  predicate NumberEndsAt(s: string, e: int) {
    (1 <= e <= |s| && IsDigit(s[e - 1])) || (2 <= e <= |s| && s[e - 1] == '.' && IsDigit(s[e - 2]))
  }

  const DoseUnits: seq<string> := ["mg", "ml", "meq", "ug", "mcg", "g", "%/g", "%/ml"]

  predicate UnitAt(s: string, e: int) {
    exists u :: 0 <= u < |DoseUnits| && StartsAt(s, e, DoseUnits[u])
  }

  /** `\d+\.?\d*?\s?(?:mg|ml|meq|ug|mcg|g|%/g|%/ml)`. */
  predicate MedDose(s: string) {
    exists e :: 0 <= e <= |s| && NumberEndsAt(s, e) &&
      (UnitAt(s, e) || (e < |s| && IsSpace(s[e]) && UnitAt(s, e + 1)))
  }

  /** The text from `st` to `e` is a non-empty run of digits and "lb" follows it. */
  predicate DigitsThenLb(s: string, st: int, e: int) {
    0 <= st < e <= |s| && AllDigits(s[st..e]) && StartsAt(s, e, "lb")
  }

  /** `\d+\.?\d+` ends just before the dash at `k`. */
  predicate TwoDigitNumberBefore(s: string, k: int) {
    2 <= k <= |s| && IsDigit(s[k - 1]) &&
    (IsDigit(s[k - 2]) || (k >= 3 && s[k - 2] == '.' && IsDigit(s[k - 3])))
  }

  /** Where the right-hand number starts after the dash at `k` (`- ?`). */
  predicate RightStart(s: string, k: int, st: int) {
    st == k + 1 || (st == k + 2 && 0 <= k + 1 < |s| && s[k + 1] == ' ')
  }

  /** `\d+?\.?\d+?`: two digit runs, possibly separated by one point. */
  predicate SplitNumber(t: string) {
    |t| >= 2 && IsDigit(t[0]) && IsDigit(t[|t| - 1]) &&
    forall i :: 0 <= i < |t| ==> IsDigit(t[i]) || (t[i] == '.' && forall j :: 0 <= j < |t| && j != i ==> t[j] != '.')
  }

  /** `((?:\d+\.?\d+- ?\d+)lb|(?:\d+- ?\d+?\.?\d+?)lb)`, anchored at a dash. */
  predicate MedRangeLb(s: string) {
    exists k :: 0 <= k < |s| && s[k] == '-' &&
      exists st, e :: k + 1 <= st <= k + 2 && st < e <= |s| && RightStart(s, k, st) && StartsAt(s, e, "lb") &&
        ((TwoDigitNumberBefore(s, k) && AllDigits(s[st..e])) ||
         (DigitAt(s, k - 1) && SplitNumber(s[st..e])))
  }

  /** `\d{1,2}\.\d-\d{2}` with its point at `k`. */
  predicate MedOtherAt(s: string, k: int) {
    1 <= k && k + 4 < |s| && IsDigit(s[k - 1]) && s[k] == '.' && IsDigit(s[k + 1]) &&
    s[k + 2] == '-' && IsDigit(s[k + 3]) && IsDigit(s[k + 4])
  }

  predicate MedOther(s: string) {
    exists k :: 0 <= k < |s| && MedOtherAt(s, k)
  }

  /** `\d{1,2}\.?\d? ?- ?\d{1,3}` with its dash at `k`. */
  predicate MedOther2At(s: string, k: int) {
    0 <= k < |s| && s[k] == '-' &&
    NumberEndsAt(s, if k >= 1 && s[k - 1] == ' ' then k - 1 else k) &&
    (DigitAt(s, k + 1) || (k + 1 < |s| && s[k + 1] == ' ' && DigitAt(s, k + 2)))
  }

  predicate MedOther2(s: string) {
    exists k :: 0 <= k < |s| && MedOther2At(s, k)
  }

  // ---------------------------------------------------------------
  // The patterns
  // ---------------------------------------------------------------

  // The literal alternatives of each pattern.
  const SuppliesWords: seq<string> := ["shampoo", "oz", "collar", "syr", "mousse"]
  const SurgeryWords: seq<string> := ["surgery", "extract", "ectomy", "mass rem", "ablation", "rooted"]
  const TestWords: seq<string> :=
    ["test", "blood", "idx", "idex", "wood's", "fecal", "echocardiogram", "hw", "cbc", "screen", "ometry",
     "ology", "parasite", "ua ", "urine", "urina", "glucose", "freestyle"]
  const VaccineWords: seq<string> := ["vacc", "bordetella"]
  const FoodWords: seq<string> := ["k9", "treat", "ckn", "chicken"]
  const GroomingWords: seq<string> := ["prophy", "tartar", "pedicure", "polish", "nail trim"]
  const ExamWords: seq<string> := ["office", "ofc e", " ofc", "exam", "anal gland"]
  const SpayNeuterWords: seq<string> := ["spay", "neuter"]

  /** `re.search(pattern, s)` finds a match. */
  predicate Matches(p: Pattern, s: string) {
    match p
    case SuppliesPat => ContainsAny(s, SuppliesWords) || CountSuffix(s)
    case SurgeryPat => ContainsAny(s, SurgeryWords) || TomySuffix(s)
    case TestPat => ContainsAny(s, TestWords) || XRay(s)
    case VaccinePat => ContainsAny(s, VaccineWords)
    case MedDosePat => MedDose(s)
    case MedRangeLbPat => MedRangeLb(s)
    case FoodPat => ContainsAny(s, FoodWords)
    case MedOtherPat => MedOther(s)
    case MedOther2Pat => MedOther2(s)
    case MicrochipPat => Contains(s, "microchip")
    case GroomingPat => ContainsAny(s, GroomingWords)
    case ExamPat => ContainsAny(s, ExamWords)
    case BandagePat => Contains(s, "bandage")
    case SpayNeuterPat => ContainsAny(s, SpayNeuterWords)
    case EuthanasiaPat => Contains(s, "euthanasia")
  }

  // ---------------------------------------------------------------
  // PROCEDURE_MAP
  // ---------------------------------------------------------------

  /** One row of the table: a pattern, its category, and the structured fields it fills (if any). */
  datatype Procedure = Procedure(pattern: Pattern, cost: Cost, fields: Option<seq<string>>)

  const TestFields: seq<string> := ["TESTTYPE", "TESTPERFORMEDDATE", "TESTDUEDATE", "TESTCOMMENTS"]
  const VaccinationFields: seq<string> :=
    ["VACCINATIONTYPE", "VACCINATIONGIVENDATE", "VACCINATIONCOMMENTS", "VACCINATIONDUEDATE"]
  const MedicalFields: seq<string> := ["MEDICALGIVENDATE", "MEDICALNAME", "MEDICALDOSAGE", "MEDICALCOMMENTS"]

  /** PROCEDURE_MAP in insertion order, which is the order patterns are tried. */
  const ProcedureMap: seq<Procedure> := [
    Procedure(SuppliesPat, Supplies, None),
    Procedure(SurgeryPat, Surgery, None),
    Procedure(TestPat, Test, Some(TestFields)),
    Procedure(VaccinePat, Vaccination, Some(VaccinationFields)),
    Procedure(MedDosePat, Medication, Some(MedicalFields)),
    Procedure(MedRangeLbPat, Medication, Some(MedicalFields)),
    Procedure(FoodPat, Food, None),
    Procedure(MedOtherPat, Medication, Some(MedicalFields)),
    Procedure(MicrochipPat, Microchip, None),
    Procedure(GroomingPat, Grooming, None),
    Procedure(ExamPat, Examination, None),
    Procedure(BandagePat, Bandage, None),
    Procedure(SpayNeuterPat, SpayNeuter, None),
    Procedure(EuthanasiaPat, Euthanasia, None)
  ]

  /** The patterns of the table, in order. */
  lemma ProcedureOrder()
    ensures |ProcedureMap| == 14
    ensures ProcedureMap[0].pattern == SuppliesPat && ProcedureMap[1].pattern == SurgeryPat
    ensures ProcedureMap[2].pattern == TestPat && ProcedureMap[3].pattern == VaccinePat
    ensures ProcedureMap[4].pattern == MedDosePat && ProcedureMap[5].pattern == MedRangeLbPat
    ensures ProcedureMap[6].pattern == FoodPat && ProcedureMap[7].pattern == MedOtherPat
    ensures ProcedureMap[8].pattern == MicrochipPat && ProcedureMap[9].pattern == GroomingPat
    ensures ProcedureMap[10].pattern == ExamPat && ProcedureMap[11].pattern == BandagePat
    ensures ProcedureMap[12].pattern == SpayNeuterPat && ProcedureMap[13].pattern == EuthanasiaPat
  {
  }

  /** `med_other2` is defined but is not a key of the table. */
  lemma MedOther2Unused()
    ensures forall k :: 0 <= k < |ProcedureMap| ==> ProcedureMap[k].pattern != MedOther2Pat
  {
  }

  /** Every row with a field list is a test, a vaccination or a medication row, with exactly these fields. */
  lemma ProcedureFields()
    ensures forall k :: 0 <= k < |ProcedureMap| && ProcedureMap[k].cost == Test ==>
              ProcedureMap[k].fields == Some(TestFields)
    ensures forall k :: 0 <= k < |ProcedureMap| && ProcedureMap[k].cost == Vaccination ==>
              ProcedureMap[k].fields == Some(VaccinationFields)
    ensures forall k :: 0 <= k < |ProcedureMap| && ProcedureMap[k].cost == Medication ==>
              ProcedureMap[k].fields == Some(MedicalFields)
    ensures forall k :: 0 <= k < |ProcedureMap| && ProcedureMap[k].cost !in {Test, Vaccination, Medication} ==>
              ProcedureMap[k].fields.None?
  {
  }

  /** The three medication patterns are exactly the rows of category Medication. */
  lemma MedicationRows()
    ensures forall k :: 0 <= k < |ProcedureMap| ==>
              (ProcedureMap[k].cost == Medication <==> ProcedureMap[k].pattern in {MedDosePat, MedRangeLbPat, MedOtherPat})
  {
  }

  /** Index of the first row whose pattern matches `s`, or -1. */
  function FirstMatch(table: seq<Procedure>, s: string): (k: int)
    ensures -1 <= k < |table|
    ensures k >= 0 ==> Matches(table[k].pattern, s)
    ensures forall j :: 0 <= j < |table| && (k < 0 || j < k) ==> !Matches(table[j].pattern, s)
  {
    if table == [] then -1
    else if Matches(table[0].pattern, s) then 0
    else
      var k := FirstMatch(table[1..], s);
      assert forall j :: 1 <= j < |table| ==> table[j] == table[1..][j - 1];
      if k < 0 then -1 else k + 1
  }

  /**
   * Rows after the first match are never consulted: two tables that agree
   * up to and including the first matching row give the same answer.
   */
  lemma {:induction false} FirstMatchIgnoresLaterRows(t1: seq<Procedure>, t2: seq<Procedure>, s: string)
    requires FirstMatch(t1, s) >= 0
    requires |t2| > FirstMatch(t1, s) && t2[..FirstMatch(t1, s) + 1] == t1[..FirstMatch(t1, s) + 1]
    ensures FirstMatch(t2, s) == FirstMatch(t1, s)
    decreases |t1|
  {
    var k := FirstMatch(t1, s);
    assert t1[0] == t1[..k + 1][0] == t2[..k + 1][0] == t2[0];
    if k > 0 {
      assert t2[1..][..k] == t2[..k + 1][1..] == t1[..k + 1][1..] == t1[1..][..k];
      FirstMatchIgnoresLaterRows(t1[1..], t2[1..], s);
    }
  }

  // ---------------------------------------------------------------
  // Non-invoice attachment names
  // ---------------------------------------------------------------

  /** NON_INVOICE_REGEXES of the current services module and of the API module. */
  const NonInvoiceWords: seq<string> :=
    ["statement", "treatment", "estimate", "record", "payment", "Medical_history", "care_instructions",
     "Reval", ".jpg", ".jpeg", "RESCUE"]

  /** NON_INVOICE_REGEXES of the oldest mail module. */
  const LegacyNonInvoiceWords: seq<string> := ["statement", "treatment", "estimate", "record"]

  predicate HasUpper(p: string) { exists i :: 0 <= i < |p| && IsUpper(p[i]) }

  /** A word with an uppercase letter never occurs in lowercased text. */
  lemma UppercaseNeverInLowered(s: string, p: string)
    requires HasUpper(p)
    ensures !Contains(Lower(s), p)
  {
    var j :| 0 <= j < |p| && IsUpper(p[j]);
    var low := Lower(s);
    forall i | 0 <= i <= |low| - |p|
      ensures !StartsAt(low, i, p)
    {
      assert low[i..i + |p|][j] == low[i + j];
    }
  }

  /**
   * The filter is tested against lowercased names, so "Medical_history",
   * "Reval" and "RESCUE" can never fire: only the other alternatives decide.
   */
  lemma UppercaseAlternativesDead(name: string)
    ensures !Contains(Lower(name), "Medical_history")
    ensures !Contains(Lower(name), "Reval")
    ensures !Contains(Lower(name), "RESCUE")
  {
    assert IsUpper("Medical_history"[0]) && IsUpper("Reval"[0]) && IsUpper("RESCUE"[0]);
    UppercaseNeverInLowered(name, "Medical_history");
    UppercaseNeverInLowered(name, "Reval");
    UppercaseNeverInLowered(name, "RESCUE");
  }
}
