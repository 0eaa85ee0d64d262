/**
 * `get_description`: the cost classifier.  A charge text is tried against
 * the rows of PROCEDURE_MAP in order; the first matching row sets the
 * category, extends the description, and fills that row's structured
 * fields by naming convention.  A text no row matches becomes "Other".
 *
 * A charge record is the dictionary the parser builds, keyed by column name.
 */
module Classifier {
  import opened Base
  import opened Dates
  import opened Parsers
  import opened Procedures

  /** A cell of a charge row: text, an amount, or a pandas timestamp as its day number. */
  datatype Value = Text(text: string) | Amount(amount: real) | Stamp(day: int)

  type ChargeRecord = map<string, Value>

  const CostTypeKey := "COSTTYPE"
  const DescriptionKey := "COSTDESCRIPTION"

  /**
   * The text `re.search(pattern, option).group(1)` captures.  Which of the
   * overlapping matches the backtracking engine picks is not modelled, so
   * the capture is a parameter.
   */
  type Capture = (Pattern, string) -> string

  /** Python's `+=` on the description is defined: it is absent or text. */
  predicate Describable(rec: ChargeRecord) {
    DescriptionKey in rec ==> rec[DescriptionKey].Text?
  }

  /** `cost_dict.get("COSTDESCRIPTION")` is truthy. */
  predicate HasDescription(rec: ChargeRecord) {
    DescriptionKey in rec && rec[DescriptionKey].Text? && rec[DescriptionKey].text != ""
  }

  /** The description text before the update, "" when there is none. */
  function OldDescription(rec: ChargeRecord): string {
    if DescriptionKey in rec && rec[DescriptionKey].Text? then rec[DescriptionKey].text else ""
  }

  /**
   * The body of the inner `for field in fields` loop for one field: five
   * independent tests on the field's name, applied in order, so a later
   * test overwrites an earlier one.
   */
  function FillField(rec: ChargeRecord, field: string, option: string, dateText: string, dosage: string,
                     score: Scorer): ChargeRecord
  {
    var r1 := if Contains(field, "DATE") then rec[field := Text(dateText)] else rec;
    var r2 := if Contains(field, "COMMENT") then r1[field := Text(option)] else r1;
    var r3 := if Contains(field, "TYPE") then
                r2[field := Text(if Contains(field, "TEST") then TestParse(option, score) else VaccineParse(option, score))]
              else r2;
    var r4 := if Contains(field, "NAME") then r3[field := Text(MedicationParse(option, score))] else r3;
    if Contains(field, "DOSAGE") then r4[field := Text(dosage)] else r4
  }

  /** The whole `for field in fields` loop. */
  function FillFields(rec: ChargeRecord, fields: seq<string>, option: string, dateText: string, dosage: string,
                      score: Scorer): ChargeRecord
    decreases |fields|
  {
    if fields == [] then rec
    else FillFields(FillField(rec, fields[0], option, dateText, dosage, score), fields[1..], option, dateText, dosage, score)
  }

  /** What the first matching row `p` does to the record. */
  function ApplyProcedure(rec: ChargeRecord, p: Procedure, option: string, date: Date, capture: Capture,
                          score: Scorer): ChargeRecord
    requires Valid(date) && Describable(rec)
  {
    var described := rec[CostTypeKey := Text(p.cost.Name())]
                        [DescriptionKey := Text(if HasDescription(rec) then OldDescription(rec) + option else option)];
    match p.fields
    case None => described
    case Some(fs) => FillFields(described, fs, option, FormatSlash(date), capture(p.pattern, option), score)
  }

  /**
   * The specification of `get_description`: the result of the first
   * matching row, or "Other" with the text appended.  With no match and no
   * description the `+=` raises a KeyError.
   */
  function Describe(option: string, rec: ChargeRecord, date: Date, capture: Capture, score: Scorer)
    : Result<ChargeRecord>
    requires Valid(date) && Describable(rec)
  {
    var k := FirstMatch(ProcedureMap, option);
    if k >= 0 then Ok(ApplyProcedure(rec, ProcedureMap[k], option, date, capture, score))
    else if DescriptionKey !in rec then Err("KeyError: 'COSTDESCRIPTION'")
    else Ok(rec[CostTypeKey := Text(Other.Name())][DescriptionKey := Text(OldDescription(rec) + option)])
  }

  /** `get_description` as written: the outer loop returns at the first match. */
  method GetDescription(option: string, costDict: ChargeRecord, date: Date, capture: Capture, score: Scorer)
    returns (r: Result<ChargeRecord>)
    requires Valid(date) && Describable(costDict)
    ensures r == Describe(option, costDict, date, capture, score)
  {
    var dateString := FormatSlash(date);
    var i := 0;
    while i < |ProcedureMap|
      invariant 0 <= i <= |ProcedureMap|
      invariant forall j :: 0 <= j < i ==> !Matches(ProcedureMap[j].pattern, option)
    {
      var entry := ProcedureMap[i];
      if Matches(entry.pattern, option) {
        var d := ApplyEntry(costDict, entry, option, date, dateString, capture, score);
        assert FirstMatch(ProcedureMap, option) == i;
        return Ok(d);
      }
      i := i + 1;
    }
    if DescriptionKey !in costDict {
      return Err("KeyError: 'COSTDESCRIPTION'");
    }
    r := Ok(costDict[CostTypeKey := Text(Other.Name())][DescriptionKey := Text(OldDescription(costDict) + option)]);
  }

  /** The body of `get_description` for the matching row: category, description, then the inner field loop. */
  method ApplyEntry(costDict: ChargeRecord, entry: Procedure, option: string, date: Date, dateString: string,
                    capture: Capture, score: Scorer)
    returns (d: ChargeRecord)
    requires Valid(date) && Describable(costDict) && dateString == FormatSlash(date)
    ensures d == ApplyProcedure(costDict, entry, option, date, capture, score)
  {
    d := costDict[CostTypeKey := Text(entry.cost.Name())];
    if HasDescription(costDict) {
      d := d[DescriptionKey := Text(OldDescription(costDict) + option)];
    } else {
      d := d[DescriptionKey := Text(option)];
    }
    if entry.fields.None? {
      return d;
    }
    var fields := entry.fields.value;
    var dosage := capture(entry.pattern, option);
    ghost var target := FillFields(d, fields, option, dateString, dosage, score);
    var n := 0;
    while n < |fields|
      invariant 0 <= n <= |fields|
      invariant FillFields(d, fields[n..], option, dateString, dosage, score) == target
    {
      d := FillField(d, fields[n], option, dateString, dosage, score);
      n := n + 1;
    }
  }

  // ---------------------------------------------------------------
  // Properties of the classifier
  // ---------------------------------------------------------------

  /**
   * The value the naming convention gives a field, as the five tests in
   * order leave it: a later test overwrites an earlier one, so DOSAGE beats
   * NAME beats TYPE beats COMMENT beats DATE.  `None` leaves the field alone.
   */
  function FieldValue(field: string, option: string, dateText: string, dosage: string, score: Scorer): Option<string> {
    if Contains(field, "DOSAGE") then Some(dosage)
    else if Contains(field, "NAME") then Some(MedicationParse(option, score))
    else if Contains(field, "TYPE") then
      Some(if Contains(field, "TEST") then TestParse(option, score) else VaccineParse(option, score))
    else if Contains(field, "COMMENT") then Some(option)
    else if Contains(field, "DATE") then Some(dateText)
    else None
  }

  /** One pass of the five tests sets the field to its conventional value and touches no other key. */
  lemma FillFieldIsFieldValue(rec: ChargeRecord, field: string, option: string, dateText: string, dosage: string,
                              score: Scorer)
    ensures var out := FillField(rec, field, option, dateText, dosage, score);
            match FieldValue(field, option, dateText, dosage, score)
            case None => out == rec
            case Some(v) => out == rec[field := Text(v)]
  {
  }

  /** After the field loop, every listed field with a conventional value holds that value. */
  lemma {:induction false} FillFieldsSets(rec: ChargeRecord, fields: seq<string>, option: string, dateText: string,
                                          dosage: string, score: Scorer, key: string)
    requires FieldValue(key, option, dateText, dosage, score).Some?
    requires key in fields || (key in rec && rec[key] == Text(FieldValue(key, option, dateText, dosage, score).value))
    ensures var out := FillFields(rec, fields, option, dateText, dosage, score);
            key in out && out[key] == Text(FieldValue(key, option, dateText, dosage, score).value)
    decreases |fields|
  {
    if fields != [] {
      FillFieldIsFieldValue(rec, fields[0], option, dateText, dosage, score);
      assert key in fields[1..] || key == fields[0] || key in rec;
      FillFieldsSets(FillField(rec, fields[0], option, dateText, dosage, score), fields[1..], option, dateText,
                     dosage, score, key);
    }
  }

  /** The field loop leaves every key it does not list as it was. */
  lemma {:induction false} FillFieldsKeepsOtherKeys(rec: ChargeRecord, fields: seq<string>, option: string,
                                                   dateText: string, dosage: string, score: Scorer, key: string)
    requires key !in fields
    ensures var out := FillFields(rec, fields, option, dateText, dosage, score);
            (key in out <==> key in rec) && (key in rec ==> out[key] == rec[key])
    decreases |fields|
  {
    if fields != [] {
      FillFieldIsFieldValue(rec, fields[0], option, dateText, dosage, score);
      FillFieldsKeepsOtherKeys(FillField(rec, fields[0], option, dateText, dosage, score), fields[1..], option,
                               dateText, dosage, score, key);
    }
  }

  /** The field lists never name COSTTYPE or COSTDESCRIPTION. */
  lemma FieldListsAvoidHeader()
    ensures forall k :: 0 <= k < |ProcedureMap| && ProcedureMap[k].fields.Some? ==>
              CostTypeKey !in ProcedureMap[k].fields.value && DescriptionKey !in ProcedureMap[k].fields.value
  {
    ProcedureFields();
  }

  /** What the matching row does to COSTTYPE and COSTDESCRIPTION, for any row whose fields avoid them. */
  lemma ApplyProcedureHeader(rec: ChargeRecord, p: Procedure, option: string, date: Date, capture: Capture,
                             score: Scorer)
    requires Valid(date) && Describable(rec)
    requires p.fields.Some? ==> CostTypeKey !in p.fields.value && DescriptionKey !in p.fields.value
    ensures var out := ApplyProcedure(rec, p, option, date, capture, score);
            CostTypeKey in out && out[CostTypeKey] == Text(p.cost.Name()) &&
            DescriptionKey in out && out[DescriptionKey] == Text(OldDescription(rec) + option)
  {
    var described := rec[CostTypeKey := Text(p.cost.Name())]
                        [DescriptionKey := Text(if HasDescription(rec) then OldDescription(rec) + option else option)];
    if p.fields.Some? {
      var fs, dt, dosage := p.fields.value, FormatSlash(date), capture(p.pattern, option);
      FillFieldsKeepsOtherKeys(described, fs, option, dt, dosage, score, CostTypeKey);
      FillFieldsKeepsOtherKeys(described, fs, option, dt, dosage, score, DescriptionKey);
    }
  }

  /**
   * COSTTYPE is the category of the first matching row, or "Other" when
   * none matches; the description is always the old description followed
   * by the charge text.
   */
  lemma DescribeHeader(option: string, rec: ChargeRecord, date: Date, capture: Capture, score: Scorer)
    requires Valid(date) && Describable(rec)
    requires Describe(option, rec, date, capture, score).Ok?
    ensures var out := Describe(option, rec, date, capture, score).value;
            var k := FirstMatch(ProcedureMap, option);
            CostTypeKey in out &&
            out[CostTypeKey] == Text(if k >= 0 then ProcedureMap[k].cost.Name() else Other.Name()) &&
            DescriptionKey in out && out[DescriptionKey] == Text(OldDescription(rec) + option)
  {
    var k := FirstMatch(ProcedureMap, option);
    if k >= 0 {
      FieldListsAvoidHeader();
      ApplyProcedureHeader(rec, ProcedureMap[k], option, date, capture, score);
    }
  }

  /**
   * Every key outside COSTTYPE, COSTDESCRIPTION and the three field lists
   * (the record's date, amount and patient) comes through unchanged.
   */
  lemma DescribeKeepsOtherKeys(option: string, rec: ChargeRecord, date: Date, capture: Capture, score: Scorer,
                               key: string)
    requires Valid(date) && Describable(rec)
    requires key != CostTypeKey && key != DescriptionKey
    requires key !in TestFields && key !in VaccinationFields && key !in MedicalFields
    requires Describe(option, rec, date, capture, score).Ok?
    ensures var out := Describe(option, rec, date, capture, score).value;
            (key in out <==> key in rec) && (key in rec ==> out[key] == rec[key])
  {
    var k := FirstMatch(ProcedureMap, option);
    if k >= 0 {
      ProcedureFields();
      var p := ProcedureMap[k];
      if p.fields.Some? {
        var described := rec[CostTypeKey := Text(p.cost.Name())]
                            [DescriptionKey := Text(if HasDescription(rec) then OldDescription(rec) + option else option)];
        FillFieldsKeepsOtherKeys(described, p.fields.value, option, FormatSlash(date), capture(p.pattern, option),
                                 score, key);
      }
    }
  }

  /** Describe fails exactly when no row matches and the record has no description. */
  lemma DescribeFails(option: string, rec: ChargeRecord, date: Date, capture: Capture, score: Scorer)
    requires Valid(date) && Describable(rec)
    ensures Describe(option, rec, date, capture, score).Err? <==>
            FirstMatch(ProcedureMap, option) < 0 && DescriptionKey !in rec
  {
  }

  /**
   * A row with no field list, and the "Other" path, change only COSTTYPE
   * and COSTDESCRIPTION.
   */
  lemma NoFieldRowTouchesTwoKeys(option: string, rec: ChargeRecord, date: Date, capture: Capture, score: Scorer)
    requires Valid(date) && Describable(rec)
    requires Describe(option, rec, date, capture, score).Ok?
    requires var k := FirstMatch(ProcedureMap, option); k < 0 || ProcedureMap[k].fields.None?
    ensures var out := Describe(option, rec, date, capture, score).value;
            out.Keys == rec.Keys + {CostTypeKey, DescriptionKey} &&
            forall key :: key in rec && key != CostTypeKey && key != DescriptionKey ==> out[key] == rec[key]
  {
  }

  /** Text no row matches is kept: classified "Other", the whole text appended, never dropped. */
  lemma UnmatchedBecomesOther(option: string, rec: ChargeRecord, date: Date, capture: Capture, score: Scorer)
    requires Valid(date) && Describable(rec) && DescriptionKey in rec
    requires forall k :: 0 <= k < |ProcedureMap| ==> !Matches(ProcedureMap[k].pattern, option)
    ensures Describe(option, rec, date, capture, score).Ok?
    ensures var out := Describe(option, rec, date, capture, score).value;
            out[CostTypeKey] == Text("Other") && out[DescriptionKey] == Text(rec[DescriptionKey].text + option)
  {
  }

  lemma NotContainsByChar(s: string, p: string, j: int)
    requires 0 <= j < |p| && p[j] !in s
    ensures !Contains(s, p)
  {
    forall i | 0 <= i <= |s| - |p|
      ensures !StartsAt(s, i, p)
    {
      assert s[i..i + |p|][j] == s[i + j];
    }
  }

  /** The conventional values of the four TEST* fields. */
  lemma TestFieldValues(option: string, dateText: string, dosage: string, score: Scorer)
    ensures FieldValue("TESTTYPE", option, dateText, dosage, score) == Some(TestParse(option, score))
    ensures FieldValue("TESTPERFORMEDDATE", option, dateText, dosage, score) == Some(dateText)
    ensures FieldValue("TESTDUEDATE", option, dateText, dosage, score) == Some(dateText)
    ensures FieldValue("TESTCOMMENTS", option, dateText, dosage, score) == Some(option)
  {
    assert StartsAt("TESTTYPE", 4, "TYPE") && StartsAt("TESTTYPE", 0, "TEST");
    NotContainsByChar("TESTTYPE", "DOSAGE", 0);
    NotContainsByChar("TESTTYPE", "NAME", 0);
    assert StartsAt("TESTPERFORMEDDATE", 13, "DATE");
    NotContainsByChar("TESTPERFORMEDDATE", "DOSAGE", 4);
    NotContainsByChar("TESTPERFORMEDDATE", "NAME", 0);
    NotContainsByChar("TESTPERFORMEDDATE", "TYPE", 1);
    NotContainsByChar("TESTPERFORMEDDATE", "COMMENT", 0);
    assert StartsAt("TESTDUEDATE", 7, "DATE");
    NotContainsByChar("TESTDUEDATE", "DOSAGE", 4);
    NotContainsByChar("TESTDUEDATE", "NAME", 0);
    NotContainsByChar("TESTDUEDATE", "TYPE", 1);
    NotContainsByChar("TESTDUEDATE", "COMMENT", 0);
    assert StartsAt("TESTCOMMENTS", 4, "COMMENT");
    NotContainsByChar("TESTCOMMENTS", "DOSAGE", 0);
    NotContainsByChar("TESTCOMMENTS", "NAME", 1);
    NotContainsByChar("TESTCOMMENTS", "TYPE", 1);
  }

  /** The conventional values of the four VACCINATION* fields. */
  lemma VaccinationFieldValues(option: string, dateText: string, dosage: string, score: Scorer)
    ensures FieldValue("VACCINATIONTYPE", option, dateText, dosage, score) == Some(VaccineParse(option, score))
    ensures FieldValue("VACCINATIONGIVENDATE", option, dateText, dosage, score) == Some(dateText)
    ensures FieldValue("VACCINATIONCOMMENTS", option, dateText, dosage, score) == Some(option)
    ensures FieldValue("VACCINATIONDUEDATE", option, dateText, dosage, score) == Some(dateText)
  {
    assert StartsAt("VACCINATIONTYPE", 11, "TYPE");
    NotContainsByChar("VACCINATIONTYPE", "DOSAGE", 0);
    NotContainsByChar("VACCINATIONTYPE", "NAME", 2);
    NotContainsByChar("VACCINATIONTYPE", "TEST", 2);
    assert StartsAt("VACCINATIONGIVENDATE", 16, "DATE");
    NotContainsByChar("VACCINATIONGIVENDATE", "DOSAGE", 2);
    NotContainsByChar("VACCINATIONGIVENDATE", "NAME", 2);
    NotContainsByChar("VACCINATIONGIVENDATE", "TYPE", 1);
    NotContainsByChar("VACCINATIONGIVENDATE", "COMMENT", 2);
    assert StartsAt("VACCINATIONCOMMENTS", 11, "COMMENT");
    NotContainsByChar("VACCINATIONCOMMENTS", "DOSAGE", 0);
    NotContainsByChar("VACCINATIONCOMMENTS", "TYPE", 1);
    var s := "VACCINATIONCOMMENTS";
    forall i | 0 <= i <= |s| - 4
      ensures !StartsAt(s, i, "NAME")
    {
      assert s[i..i + 4][0] == s[i];
      assert s[i..i + 4][1] == s[i + 1];
    }
    assert StartsAt("VACCINATIONDUEDATE", 14, "DATE");
    NotContainsByChar("VACCINATIONDUEDATE", "DOSAGE", 2);
    NotContainsByChar("VACCINATIONDUEDATE", "NAME", 2);
    NotContainsByChar("VACCINATIONDUEDATE", "TYPE", 1);
    NotContainsByChar("VACCINATIONDUEDATE", "COMMENT", 2);
  }

  /** The conventional values of the four MEDICAL* fields. */
  lemma MedicalFieldValues(option: string, dateText: string, dosage: string, score: Scorer)
    ensures FieldValue("MEDICALGIVENDATE", option, dateText, dosage, score) == Some(dateText)
    ensures FieldValue("MEDICALNAME", option, dateText, dosage, score) == Some(MedicationParse(option, score))
    ensures FieldValue("MEDICALDOSAGE", option, dateText, dosage, score) == Some(dosage)
    ensures FieldValue("MEDICALCOMMENTS", option, dateText, dosage, score) == Some(option)
  {
    assert StartsAt("MEDICALGIVENDATE", 12, "DATE");
    NotContainsByChar("MEDICALGIVENDATE", "DOSAGE", 1);
    NotContainsByChar("MEDICALGIVENDATE", "TYPE", 1);
    NotContainsByChar("MEDICALGIVENDATE", "COMMENT", 1);
    var g := "MEDICALGIVENDATE";
    forall i | 0 <= i <= |g| - 4
      ensures !StartsAt(g, i, "NAME")
    {
      assert g[i..i + 4][0] == g[i];
      assert g[i..i + 4][1] == g[i + 1];
    }
    assert StartsAt("MEDICALNAME", 7, "NAME");
    NotContainsByChar("MEDICALNAME", "DOSAGE", 1);
    assert StartsAt("MEDICALDOSAGE", 7, "DOSAGE");
    assert StartsAt("MEDICALCOMMENTS", 7, "COMMENT");
    NotContainsByChar("MEDICALCOMMENTS", "DOSAGE", 4);
    NotContainsByChar("MEDICALCOMMENTS", "TYPE", 1);
    var c := "MEDICALCOMMENTS";
    forall i | 0 <= i <= |c| - 4
      ensures !StartsAt(c, i, "NAME") && !StartsAt(c, i, "DATE")
    {
      assert c[i..i + 4][0] == c[i];
      assert c[i..i + 4][1] == c[i + 1];
    }
  }

  /**
   * A listed field of the first matching row ends up holding its
   * conventional value, computed from the charge date and that row's capture.
   */
  lemma DescribeFillsField(option: string, rec: ChargeRecord, date: Date, capture: Capture, score: Scorer,
                           key: string)
    requires Valid(date) && Describable(rec)
    requires FirstMatch(ProcedureMap, option) >= 0
    requires var p := ProcedureMap[FirstMatch(ProcedureMap, option)];
             p.fields.Some? && key in p.fields.value &&
             FieldValue(key, option, FormatSlash(date), capture(p.pattern, option), score).Some?
    ensures Describe(option, rec, date, capture, score).Ok?
    ensures var p := ProcedureMap[FirstMatch(ProcedureMap, option)];
            var out := Describe(option, rec, date, capture, score).value;
            key in out && out[key] == Text(FieldValue(key, option, FormatSlash(date), capture(p.pattern, option), score).value)
  {
    var p := ProcedureMap[FirstMatch(ProcedureMap, option)];
    var described := rec[CostTypeKey := Text(p.cost.Name())]
                        [DescriptionKey := Text(if HasDescription(rec) then OldDescription(rec) + option else option)];
    FillFieldsSets(described, p.fields.value, option, FormatSlash(date), capture(p.pattern, option), score, key);
  }

  /** For the test row the four TEST* fields are set from the date, the sub-classifier and the text. */
  lemma TestFieldsFilled(option: string, rec: ChargeRecord, date: Date, capture: Capture, score: Scorer)
    requires Valid(date) && Describable(rec)
    requires FirstMatch(ProcedureMap, option) == 2
    ensures Describe(option, rec, date, capture, score).Ok?
    ensures var out := Describe(option, rec, date, capture, score).value;
            "TESTTYPE" in out && out["TESTTYPE"] == Text(TestParse(option, score)) &&
            "TESTPERFORMEDDATE" in out && out["TESTPERFORMEDDATE"] == Text(FormatSlash(date)) &&
            "TESTDUEDATE" in out && out["TESTDUEDATE"] == Text(FormatSlash(date)) &&
            "TESTCOMMENTS" in out && out["TESTCOMMENTS"] == Text(option)
  {
    assert ProcedureMap[2] == Procedure(TestPat, Test, Some(TestFields));
    var dt, dosage := FormatSlash(date), capture(TestPat, option);
    TestFieldValues(option, dt, dosage, score);
    DescribeFillsField(option, rec, date, capture, score, "TESTTYPE");
    DescribeFillsField(option, rec, date, capture, score, "TESTPERFORMEDDATE");
    DescribeFillsField(option, rec, date, capture, score, "TESTDUEDATE");
    DescribeFillsField(option, rec, date, capture, score, "TESTCOMMENTS");
  }

  /** For the vaccine row the four VACCINATION* fields are set likewise, TYPE from the vaccine sub-classifier. */
  lemma VaccinationFieldsFilled(option: string, rec: ChargeRecord, date: Date, capture: Capture, score: Scorer)
    requires Valid(date) && Describable(rec)
    requires FirstMatch(ProcedureMap, option) == 3
    ensures Describe(option, rec, date, capture, score).Ok?
    ensures var out := Describe(option, rec, date, capture, score).value;
            "VACCINATIONTYPE" in out && out["VACCINATIONTYPE"] == Text(VaccineParse(option, score)) &&
            "VACCINATIONGIVENDATE" in out && out["VACCINATIONGIVENDATE"] == Text(FormatSlash(date)) &&
            "VACCINATIONCOMMENTS" in out && out["VACCINATIONCOMMENTS"] == Text(option) &&
            "VACCINATIONDUEDATE" in out && out["VACCINATIONDUEDATE"] == Text(FormatSlash(date))
  {
    assert ProcedureMap[3] == Procedure(VaccinePat, Vaccination, Some(VaccinationFields));
    var dt, dosage := FormatSlash(date), capture(VaccinePat, option);
    VaccinationFieldValues(option, dt, dosage, score);
    DescribeFillsField(option, rec, date, capture, score, "VACCINATIONTYPE");
    DescribeFillsField(option, rec, date, capture, score, "VACCINATIONGIVENDATE");
    DescribeFillsField(option, rec, date, capture, score, "VACCINATIONCOMMENTS");
    DescribeFillsField(option, rec, date, capture, score, "VACCINATIONDUEDATE");
  }

  /** For a medication row NAME comes from the medication sub-classifier and DOSAGE is the pattern's capture. */
  lemma MedicalFieldsFilled(option: string, rec: ChargeRecord, date: Date, capture: Capture, score: Scorer)
    requires Valid(date) && Describable(rec)
    requires FirstMatch(ProcedureMap, option) >= 0
    requires ProcedureMap[FirstMatch(ProcedureMap, option)].cost == Medication
    ensures Describe(option, rec, date, capture, score).Ok?
    ensures var p := ProcedureMap[FirstMatch(ProcedureMap, option)];
            var out := Describe(option, rec, date, capture, score).value;
            "MEDICALGIVENDATE" in out && out["MEDICALGIVENDATE"] == Text(FormatSlash(date)) &&
            "MEDICALNAME" in out && out["MEDICALNAME"] == Text(MedicationParse(option, score)) &&
            "MEDICALDOSAGE" in out && out["MEDICALDOSAGE"] == Text(capture(p.pattern, option)) &&
            "MEDICALCOMMENTS" in out && out["MEDICALCOMMENTS"] == Text(option)
  {
    var p := ProcedureMap[FirstMatch(ProcedureMap, option)];
    ProcedureFields();
    assert p.fields == Some(MedicalFields);
    var dt, dosage := FormatSlash(date), capture(p.pattern, option);
    MedicalFieldValues(option, dt, dosage, score);
    DescribeFillsField(option, rec, date, capture, score, "MEDICALGIVENDATE");
    DescribeFillsField(option, rec, date, capture, score, "MEDICALNAME");
    DescribeFillsField(option, rec, date, capture, score, "MEDICALDOSAGE");
    DescribeFillsField(option, rec, date, capture, score, "MEDICALCOMMENTS");
  }

  // ---------------------------------------------------------------
  // Consequences of the table order
  // ---------------------------------------------------------------

  /** Supplies is tried first, so a charge mentioning shampoo is Supplies whatever else it says. */
  lemma ShampooIsSupplies(option: string)
    requires Contains(option, "shampoo")
    ensures FirstMatch(ProcedureMap, option) == 0 && ProcedureMap[0].cost == Supplies
  {
  }

  /**
   * Surgery precedes spay/neuter, so a charge mentioning both surgery and
   * spay is never classified Spay/Neuter.
   */
  lemma SurgeryShadowsSpay(option: string)
    requires Contains(option, "surgery") && Contains(option, "spay")
    ensures FirstMatch(ProcedureMap, option) in {0, 1}
    ensures ProcedureMap[FirstMatch(ProcedureMap, option)].cost in {Supplies, Surgery}
  {
    assert Matches(SurgeryPat, option);
  }

  /** A dose range with spaces on both sides of the dash matches only `med_other2`, which the table lacks. */
  lemma MedOther2OnlyTextIsOther()
    ensures Matches(MedOther2Pat, "5 - 10")
    ensures FirstMatch(ProcedureMap, "5 - 10") == -1
  {
    assert MedOther2At("5 - 10", 2);
    var s := "5 - 10";
    assert PlainText(s);
    PlainTextMatchesNoRow(s);
  }

  /** No lowercase letter, point or percent sign. */
  predicate Plain(c: char) {
    !IsLowerLetter(c) && c != '.' && c != '%'
  }

  lemma NotStartsAtByChar(s: string, i: int, p: string, j: int)
    requires 0 <= j < |p| && (0 <= i + j < |s| ==> s[i + j] != p[j])
    ensures !StartsAt(s, i, p)
  {
    if 0 <= i && i + |p| <= |s| {
      assert s[i..i + |p|][j] == s[i + j];
    }
  }

  /** A word with a lowercase letter among its first two characters. */
  predicate LetterLed(p: string) {
    |p| >= 2 && (IsLowerLetter(p[0]) || IsLowerLetter(p[1]))
  }

  predicate NoLowerLetter(s: string) {
    forall i :: 0 <= i < |s| ==> !IsLowerLetter(s[i])
  }

  lemma LetterLedAbsent(s: string, p: string)
    requires NoLowerLetter(s) && LetterLed(p)
    ensures !Contains(s, p)
  {
    forall i | 0 <= i <= |s| - |p|
      ensures !StartsAt(s, i, p)
    {
      assert s[i..i + |p|][0] == s[i] && s[i..i + |p|][1] == s[i + 1];
    }
  }

  lemma {:induction false} LetterLedAllAbsent(s: string, ps: seq<string>)
    requires NoLowerLetter(s)
    requires forall k :: 0 <= k < |ps| ==> LetterLed(ps[k])
    ensures !ContainsAny(s, ps)
  {
    if ps != [] {
      LetterLedAbsent(s, ps[0]);
      LetterLedAllAbsent(s, ps[1..]);
    }
  }

  /** The literal alternatives of every row start with a lowercase letter in their first two characters. */
  lemma WordListsLetterLed()
    ensures forall k :: 0 <= k < |SuppliesWords| ==> LetterLed(SuppliesWords[k])
    ensures forall k :: 0 <= k < |SurgeryWords| ==> LetterLed(SurgeryWords[k])
    ensures forall k :: 0 <= k < |TestWords| ==> LetterLed(TestWords[k])
    ensures forall k :: 0 <= k < |VaccineWords| ==> LetterLed(VaccineWords[k])
    ensures forall k :: 0 <= k < |FoodWords| ==> LetterLed(FoodWords[k])
    ensures forall k :: 0 <= k < |GroomingWords| ==> LetterLed(GroomingWords[k])
    ensures forall k :: 0 <= k < |ExamWords| ==> LetterLed(ExamWords[k])
    ensures forall k :: 0 <= k < |SpayNeuterWords| ==> LetterLed(SpayNeuterWords[k])
  {
  }

  lemma PointlessNotMedOther(s: string)
    requires forall i :: 0 <= i < |s| ==> s[i] != '.'
    ensures !MedOther(s)
  {
    forall k | 0 <= k < |s|
      ensures !MedOtherAt(s, k)
    {
    }
  }

  predicate PlainText(s: string) {
    forall i :: 0 <= i < |s| ==> Plain(s[i])
  }

  lemma PlainNotWordPatterns(s: string)
    requires PlainText(s)
    ensures !ContainsAny(s, SuppliesWords) && !ContainsAny(s, SurgeryWords) && !ContainsAny(s, TestWords)
    ensures !ContainsAny(s, VaccineWords) && !ContainsAny(s, FoodWords) && !ContainsAny(s, GroomingWords)
    ensures !ContainsAny(s, ExamWords) && !ContainsAny(s, SpayNeuterWords)
    ensures !Contains(s, "microchip") && !Contains(s, "bandage") && !Contains(s, "euthanasia")
  {
    assert NoLowerLetter(s);
    WordListsLetterLed();
    LetterLedAllAbsent(s, SuppliesWords);
    LetterLedAllAbsent(s, SurgeryWords);
    LetterLedAllAbsent(s, TestWords);
    LetterLedAllAbsent(s, VaccineWords);
    LetterLedAllAbsent(s, FoodWords);
    LetterLedAllAbsent(s, GroomingWords);
    LetterLedAllAbsent(s, ExamWords);
    LetterLedAllAbsent(s, SpayNeuterWords);
    LetterLedAbsent(s, "microchip");
    LetterLedAbsent(s, "bandage");
    LetterLedAbsent(s, "euthanasia");
  }

  lemma PlainNotScanned(s: string)
    requires PlainText(s)
    ensures !CountSuffix(s) && !TomySuffix(s) && !XRay(s)
  {
    assert NoLowerLetter(s);
    LetterLedAbsent(s, "xray");
    forall k
      ensures !StartsAt(s, k + 1, "ct") && !StartsAt(s, k + 1, " ct") && !StartsAt(s, k, "tomy")
      ensures !StartsAt(s, k + 2, "ray")
    {
      NotStartsAtByChar(s, k + 1, "ct", 0);
      NotStartsAtByChar(s, k + 1, " ct", 1);
      NotStartsAtByChar(s, k, "tomy", 0);
      NotStartsAtByChar(s, k + 2, "ray", 0);
    }
  }

  lemma PlainNotMedication(s: string)
    requires PlainText(s)
    ensures !MedDose(s) && !MedRangeLb(s) && !MedOther(s)
  {
    forall k
      ensures !StartsAt(s, k, "lb")
    {
      NotStartsAtByChar(s, k, "lb", 0);
    }
    forall e, u | 0 <= u < |DoseUnits|
      ensures !StartsAt(s, e, DoseUnits[u])
    {
      assert DoseUnits[u][0] in "mug%";
      NotStartsAtByChar(s, e, DoseUnits[u], 0);
    }
    PointlessNotMedOther(s);
  }

  /**
   * Every row needs a lowercase letter, a point or a percent sign, so a
   * text of digits, spaces, dashes and capitals is always classified Other.
   */
  lemma PlainTextMatchesNoRow(s: string)
    requires PlainText(s)
    ensures FirstMatch(ProcedureMap, s) == -1
  {
    PlainNotWordPatterns(s);
    PlainNotScanned(s);
    PlainNotMedication(s);
    forall k | 0 <= k < |ProcedureMap|
      ensures !Matches(ProcedureMap[k].pattern, s)
    {
      assert ProcedureMap[k].pattern != MedOther2Pat;
    }
  }
}
