/**
 * The clinic invoice parsers: per-clinic pattern sets, the header fields
 * (invoice id, invoice date, patient names), the line walk that turns
 * itemized lines into charge records, the canonical file name, the
 * table-driven AI parser, and the choice of parser from the extracted text.
 *
 * The clinics' own regular expressions run on an `Engine` given as a
 * parameter; the classifier patterns are modelled exactly in `Procedures`.
 */
module Invoices {
  import opened Base
  import opened Dates
  import opened Parsers
  import opened Procedures
  import opened Classifier
  import opened InvoiceText

  /**
   * The regular-expression engine for the clinics' patterns:
   * `search(p, t, multiline)` is group 1 of the first match (or `None`),
   * `findAll(p, t, multiline)` is `re.findall`, and `matchStarts(p, t)` are
   * the start offsets of `re.finditer(p, t, re.MULTILINE)`.
   */
  datatype Engine = Engine(
    search: (string, string, bool) -> Option<string>,
    findAll: (string, string, bool) -> seq<string>,
    matchStarts: (string, string) -> seq<nat>)

  /** The class attributes a clinic's parser sets. */
  datatype ClinicConfig = ClinicConfig(
    clinic: string,
    abrv: string,
    invoicePattern: string,
    invoiceDatePattern: string,
    dogNamePattern: string,
    chargesDogPattern: string,
    pricePattern: string,
    chargesPattern: string,
    chargesDatePattern: string,
    itemizedBeginPattern: string,
    itemizedEnd: string,
    joinWrapped: bool)  // `section_reduce_pattern` is `\n(?=\S)` (VCA) or empty

  /** The attributes of the `InvoiceParser` base class. */
  const BaseConfig := ClinicConfig(
    "", "",
    @"Invoice:\s*?(\d+)",
    @"Printed:\s*?(\d{2}-\d{2}-\d{2})",
    @"^\d{2}-\d{2}-\d{2}\s+([A-Z].+?)  \s+?\d",
    "",
    @"(\d+\.\d{2})",
    "",
    "",
    @"^\s+(Description.*)",
    "Patient Subtotal:",
    false)

  const WaipioConfig := BaseConfig.(
    clinic := "Waipio Pet Clinic", abrv := "WPC",
    chargesDatePattern := @"^(\d{2}-\d{2}-\d{2})",
    chargesPattern := @"\s{2,}(?:\d+\.\d{1,2}|\d+)\s+?(\w.*?)\*",
    chargesDogPattern := @"(?i)^\d{2}-\d{2}-\d{2}\s+((?!DIAGNOSIS)[A-Za-z].+?)  \s+?\d",
    dogNamePattern := @"(?i)\d{2}-\d{2}-\d{2}\s+?((?!DIAGNOSIS)[A-Z].*?)\s{2,}\d",
    itemizedBeginPattern := @"^\s+(Date.*)",
    itemizedEnd := "payment")

  const VcaConfig := BaseConfig.(
    clinic := "Veterinary Centers of America", abrv := "VCA",
    dogNamePattern := @"^ (.*) \(\#\d+\)",
    pricePattern := @"\$(\d+\.\d+)",
    chargesPattern := @"(?:^\s{1}|\d{1,2}\/\d{1,2}\/\d{4}\s+)?(\w.*?) \$",
    invoicePattern := @"Invoice:\s*?(\d+)",
    invoiceDatePattern := @"\| Date: (\d{1,2}/\d{1,2}/\d{1,4})",
    chargesDatePattern := @"(\d{1,2}\/\d{1,2}\/\d{2,4})",
    itemizedBeginPattern := @"^\s+(Date.*)",
    itemizedEnd := "Subtotal:",
    joinWrapped := true)

  const AnimalHouseConfig := BaseConfig.(
    clinic := "Animal House Veterinary Center", abrv := "AHVC",
    invoicePattern := @"Invoice #:\s+?(\d+)",
    invoiceDatePattern := @"\s{2,} Date:\s+?(\d{1,2}/\d{1,2}/\d{1,4})",
    dogNamePattern := @"Patient Name: (.+?)  +?",
    pricePattern := @"\$(\d+\.\d+)",
    chargesDatePattern := @"(\d{1,2}\/\d{1,2}\/\d{4})",
    chargesPattern := @" \s+(\S.+?  )\s+\S{1,2}",
    itemizedBeginPattern := @"^\s+(Description.*)",
    itemizedEnd := "Patient Subtotal:")

  const WahiawaConfig := BaseConfig.(
    clinic := "Wahiawa Pet Hospital", abrv := "WPH",
    chargesDatePattern := @"^(\d{2}-\d{2}-\d{2})",
    chargesPattern := @"\s{2,}(?:\d+\.\d{1,2}|\d+)\s+?(\w.*?)\*",
    dogNamePattern := @"\d{2}-\d{2}-\d{2}\s+?([A-Z].*?)\s{2,}\d",
    itemizedBeginPattern := @"^\s+(Date.*)",
    itemizedEnd := "payment")

  const MililaniConfig := BaseConfig.(
    clinic := "Mililani Mauka Veterinary Clinic", abrv := "MMVC",
    invoicePattern := @"Invoice #:\s+?(\d+)",
    invoiceDatePattern := @"Invoice date:\s+?(\d{1,2}-\d{1,2}-\d{1,4})",
    dogNamePattern := @"Animal Name:\s+(.+?)\s{2,}",
    pricePattern := @"\$(\d+\.\d+)",
    chargesDatePattern := @"(\d{1,2}\/\d{1,2}\/\d{4})",
    chargesPattern := @" \s+(\S.+?  )\s+\S{1,2}",
    itemizedBeginPattern := @"\s+(Qty.*)",
    itemizedEnd := "Subtotal:")

  // ---------------------------------------------------------------
  // make_clinic_abbreviation
  // ---------------------------------------------------------------

  /** A word contributes its initial when it starts uppercase and is longer than two characters. */
  predicate Initialled(w: string) {
    |w| > 2 && IsUpper(w[0])
  }

  /** The initials of the contributing words, in order. */
  function Initials(words: seq<string>): (r: string)
    ensures |r| <= |words|
  {
    if words == [] then ""
    else (if Initialled(words[0]) then [words[0][0]] else "") + Initials(words[1..])
  }

  /** The initials are exactly the first letters of the contributing words, in the same order. */
  lemma {:induction false} InitialsAreFiltered(words: seq<string>)
    ensures |Initials(words)| == |Filtered(words)|
    ensures forall i :: 0 <= i < |Filtered(words)| ==> Initials(words)[i] == Filtered(words)[i][0]
  {
    if words != [] {
      var rest := words[1..];
      InitialsAreFiltered(rest);
      if Initialled(words[0]) {
        assert Initials(words) == [words[0][0]] + Initials(rest);
        assert Filtered(words) == [words[0]] + Filtered(rest);
        forall i | 1 <= i < |Filtered(words)|
          ensures Initials(words)[i] == Filtered(words)[i][0]
        {
          assert Initials(words)[i] == Initials(rest)[i - 1];
          assert Filtered(words)[i] == Filtered(rest)[i - 1];
        }
      } else {
        assert Initials(words) == Initials(rest);
        assert Filtered(words) == Filtered(rest);
      }
    }
  }

  /** The words that contribute an initial, in order. */
  function Filtered(words: seq<string>): (r: seq<string>)
    ensures forall i :: 0 <= i < |r| ==> Initialled(r[i])
    ensures forall w :: w in r ==> w in words
  {
    if words == [] then []
    else (if Initialled(words[0]) then [words[0]] else []) + Filtered(words[1..])
  }

  /** `make_clinic_abbreviation`: the loop over `clinic_name.split()`. */
  method MakeClinicAbbreviation(clinicName: string) returns (abbreviation: string)
    ensures abbreviation == Initials(SplitWs(clinicName))
  {
    var words := SplitWs(clinicName);
    abbreviation := "";
    var i := 0;
    while i < |words|
      invariant 0 <= i <= |words|
      invariant abbreviation + Initials(words[i..]) == Initials(words)
    {
      assert words[i..][1..] == words[i + 1..];
      if IsUpper(words[i][0]) && |words[i]| > 2 {
        abbreviation := abbreviation + [words[i][0]];
      }
      i := i + 1;
    }
  }

  /** "Veterinary Centers of America" abbreviates to "VCA": the lowercase "of" is skipped. */
  lemma VcaAbbreviation()
    ensures Initials(["Veterinary", "Centers", "of", "America"]) == "VCA"
  {
  }

  // ---------------------------------------------------------------
  // Header fields
  // ---------------------------------------------------------------

  /** `get_invoice_id`: group 1 of the invoice pattern; no match raises. */
  function InvoiceId(cfg: ClinicConfig, eng: Engine, text: string): (r: Result<string>)
    ensures r.Ok? <==> eng.search(cfg.invoicePattern, text, true).Some?
    ensures r.Ok? ==> r.value == eng.search(cfg.invoicePattern, text, true).value
  {
    match eng.search(cfg.invoicePattern, text, true)
    case None => Err("Unable to parse invoice ID")
    case Some(g) => Ok(g)
  }

  /** `get_dog_names`: every match of the patient-name pattern; none at all raises. */
  function DogNames(cfg: ClinicConfig, eng: Engine, text: string): (r: Result<seq<string>>)
    ensures r.Ok? <==> eng.findAll(cfg.dogNamePattern, text, true) != []
    ensures r.Ok? ==> r.value == eng.findAll(cfg.dogNamePattern, text, true) && r.value != []
  {
    var names := eng.findAll(cfg.dogNamePattern, text, true);
    if names == [] then Err("No Dog Names!") else Ok(names)
  }

  /**
   * `get_invoiced_date`: the invoice-date pattern must match, and its text
   * is read under the first of the date formats that accepts it.
   */
  function InvoicedDate(cfg: ClinicConfig, eng: Engine, text: string): (r: Result<Date>)
    ensures r.Ok? ==> Valid(r.value)
    ensures eng.search(cfg.invoiceDatePattern, text, true).None? ==> r.Err?
  {
    match eng.search(cfg.invoiceDatePattern, text, true)
    case None => Err("Invoice has no match with given regex")
    case Some(g) =>
      match ParseFirst(g, DateFormats)
      case None => Err("Couldn't parse invoice date")
      case Some(d) => Ok(d)
  }

  /**
   * The invoice date is the matched text read under one of the date
   * formats, and it fails only when the pattern is missing or no format
   * accepts the text.
   */
  lemma InvoicedDateParses(cfg: ClinicConfig, eng: Engine, text: string)
    ensures var r := InvoicedDate(cfg, eng, text);
            var m := eng.search(cfg.invoiceDatePattern, text, true);
            (r.Ok? ==> exists k :: 0 <= k < |DateFormats| && Strptime(m.value, DateFormats[k]) == Some(r.value)) &&
            (r.Err? <==> m.None? || forall k | 0 <= k < |DateFormats| :: Strptime(m.value, DateFormats[k]).None?) &&
            (r.Ok? ==> ParseFirst(m.value, DateFormats) == Some(r.value))
  {
    var m := eng.search(cfg.invoiceDatePattern, text, true);
    if m.Some? {
      ParseFirstRule(m.value, DateFormats);
    }
  }

  /**
   * `get_date`: no match of the charge-date pattern is no date; a match no
   * format accepts raises.
   */
  function ChargeDate(cfg: ClinicConfig, eng: Engine, line: string): (r: Result<Option<Date>>)
    ensures r.Ok? && r.value.Some? ==> Valid(r.value.value)
    ensures r.Err? <==> (eng.search(cfg.chargesDatePattern, line, false).Some? &&
                         ParseFirst(eng.search(cfg.chargesDatePattern, line, false).value, DateFormats).None?)
    ensures r == Ok(None) <==> eng.search(cfg.chargesDatePattern, line, false).None?
  {
    match eng.search(cfg.chargesDatePattern, line, false)
    case None => Ok(None)
    case Some(g) =>
      match ParseFirst(g, DateFormats)
      case None => Err("Couldn't parse charge date")
      case Some(d) => Ok(Some(d))
  }

  /** `get_price`: `float` of the last price match, 0.00 when there is none. */
  function Price(cfg: ClinicConfig, eng: Engine, line: string): (r: Result<real>)
    ensures eng.findAll(cfg.pricePattern, line, false) == [] ==> r == Ok(0.0)
    ensures r.Ok? ==> r.value >= 0.0
    ensures var ps := eng.findAll(cfg.pricePattern, line, false);
            ps != [] ==> (r.Ok? <==> PriceValue(ps[|ps| - 1]).Some?) &&
                         (r.Ok? ==> r.value == PriceValue(ps[|ps| - 1]).value)
  {
    var ps := eng.findAll(cfg.pricePattern, line, false);
    if ps == [] then Ok(0.0)
    else
      match PriceValue(ps[|ps| - 1])
      case None => Err("ValueError: could not convert string to float")
      case Some(v) => Ok(v)
  }

  /** `get_charge`: group 1 of the charge pattern, "" when it does not match. */
  function Charge(cfg: ClinicConfig, eng: Engine, line: string): (r: string)
    ensures eng.search(cfg.chargesPattern, line, false).None? ==> r == ""
    ensures eng.search(cfg.chargesPattern, line, false).Some? ==> r == eng.search(cfg.chargesPattern, line, false).value
  {
    match eng.search(cfg.chargesPattern, line, false)
    case None => ""
    case Some(g) => g
  }

  /**
   * `get_animal_name_charge`: a clinic with a per-line patient pattern takes
   * the patient from a line that names one; otherwise the current patient stays.
   */
  function ChargeDog(cfg: ClinicConfig, eng: Engine, line: string, current: string): (r: string)
    ensures cfg.chargesDogPattern == "" ==> r == current
    ensures r != current ==> eng.search(cfg.chargesDogPattern, line, false) == Some(r)
  {
    if cfg.chargesDogPattern == "" then current
    else
      match eng.search(cfg.chargesDogPattern, line, false)
      case None => current
      case Some(g) => g
  }

  /** `{abrv}_{id}_{YYYY-MM-DD}.pdf`. */
  function CanonicalName(abrv: string, id: string, d: Date): (r: string)
    requires Valid(d)
    ensures |r| == |abrv| + |id| + 16
    ensures r[|r| - 4..] == ".pdf"
    ensures r[..|abrv| + |id| + 12] == abrv + "_" + id + "_" + FormatIso(d)
  {
    var stem := abrv + "_" + id + "_" + FormatIso(d);
    assert |stem| == |abrv| + |id| + 12;
    var r := stem + ".pdf";
    assert r[..|stem|] == stem;
    assert r[|stem|..] == ".pdf";
    r
  }

  /** The invoice description prefix `[{clinic} - {id} - {YYYY-MM-DD}] `. */
  function DescriptionPrefix(clinic: string, id: string, d: Date): (r: string)
    requires Valid(d)
    ensures |r| >= 2 && r[0] == '[' && r[|r| - 2..] == "] "
  {
    var body := clinic + " - " + id + " - " + FormatIso(d);
    var r := "[" + body + "] ";
    assert |r| == |body| + 3;
    assert r[|r| - 2..] == "] ";
    r
  }

  // ---------------------------------------------------------------
  // Itemized sections
  // ---------------------------------------------------------------

  /** `get_itemized_section`: one section per begin match, in order. */
  function ItemizedSections(cfg: ClinicConfig, eng: Engine, text: string): (r: seq<string>)
    ensures |r| == |eng.matchStarts(cfg.itemizedBeginPattern, text)|
    ensures forall k :: 0 <= k < |r| ==>
              r[k] == Section(text, eng.matchStarts(cfg.itemizedBeginPattern, text)[k], cfg.itemizedEnd, cfg.joinWrapped)
  {
    var starts := eng.matchStarts(cfg.itemizedBeginPattern, text);
    seq(|starts|, k requires 0 <= k < |starts| => Section(text, starts[k], cfg.itemizedEnd, cfg.joinWrapped))
  }

  // ---------------------------------------------------------------
  // The line walk
  // ---------------------------------------------------------------

  /**
   * `get_description` as the parsers call it: the charge text, the record
   * built so far and the charge date give the classified record or an error.
   * The walk is stated for any such classifier; `Classifying` is the one
   * `Describe` specifies.
   */
  type Classify = (string, ChargeRecord, Date) -> Result<ChargeRecord>

  /** `Describe` with the capture and the scorer fixed, on the records it accepts. */
  function Classifying(capture: Capture, score: Scorer): Classify {
    (option: string, rec: ChargeRecord, date: Date) =>
      if Valid(date) && Describable(rec) then Describe(option, rec, date, capture, score)
      else Err("TypeError: unsupported operand type(s) for +=")
  }

  /** What the walk carries from line to line: the charge date and the current patient. */
  datatype Cursor = Cursor(chargeDate: Date, currDog: string)

  /** The invoice-level values every charge record is stamped with. */
  datatype Header = Header(clinic: string, id: string, invoicedDate: Date)

  /** The record `parse_item` builds before classification. */
  function BaseRecord(hdr: Header, date: Date, price: real, dog: string): (r: ChargeRecord)
    requires Valid(date) && Valid(hdr.invoicedDate)
    ensures Describable(r) && DescriptionKey in r
  {
    map["COSTDATE" := Text(FormatSlash(date)),
        DescriptionKey := Text(DescriptionPrefix(hdr.clinic, hdr.id, hdr.invoicedDate)),
        "COSTAMOUNT" := Amount(price),
        "ANIMALNAME" := Text(dog)]
  }

  /**
   * The first half of `parse_item` on the lowercased line: the charge date
   * carries forward unless the line has its own, and the patient is updated.
   */
  function NextCursor(cfg: ClinicConfig, eng: Engine, cur: Cursor, item: string): (r: Result<Cursor>)
    ensures r.Ok? && Valid(cur.chargeDate) ==> Valid(r.value.chargeDate)
  {
    match ChargeDate(cfg, eng, item)
    case Err(e) => Err(e)
    case Ok(found) =>
      Ok(Cursor(if found.Some? then found.value else cur.chargeDate, ChargeDog(cfg, eng, item, cur.currDog)))
  }

  /**
   * The second half of `parse_item`, at the updated cursor: the line is
   * dropped when it has no charge text and no positive price, and is
   * classified otherwise.
   */
  function ChargeItem(cfg: ClinicConfig, eng: Engine, hdr: Header, next: Cursor, item: string, classify: Classify)
    : Result<Option<ChargeRecord>>
    requires Valid(next.chargeDate) && Valid(hdr.invoicedDate)
  {
    match Price(cfg, eng, item)
    case Err(e) => Err(e)
    case Ok(price) =>
      var charge := Charge(cfg, eng, item);
      if charge == "" && price <= 0.0 then Ok(None)
      else
        match classify(charge, BaseRecord(hdr, next.chargeDate, price, next.currDog), next.chargeDate)
        case Err(e) => Err(e)
        case Ok(rec) => Ok(Some(rec))
  }

  /** `parse_item` on one line: the new cursor and the record, if the line gives one. */
  function ItemStep(cfg: ClinicConfig, eng: Engine, hdr: Header, cur: Cursor, line: string,
                    classify: Classify): Result<(Cursor, Option<ChargeRecord>)>
    requires Valid(cur.chargeDate) && Valid(hdr.invoicedDate)
  {
    var item := Lower(line);
    match NextCursor(cfg, eng, cur, item)
    case Err(e) => Err(e)
    case Ok(next) =>
      match ChargeItem(cfg, eng, hdr, next, item, classify)
      case Err(e) => Err(e)
      case Ok(rec) => Ok((next, rec))
  }

  /** The walk's state: the cursor and the records collected so far. */
  datatype Walk = Walk(cursor: Cursor, items: seq<ChargeRecord>)

  predicate WalkValid(w: Walk) { Valid(w.cursor.chargeDate) }

  /** A line is parsed unless it is the first of its section or shorter than 60 characters. */
  predicate Eligible(line: string, index: int) {
    index != 0 && |line| >= 60
  }

  /** One iteration of the inner loop of `parse_invoice`. */
  function LineStep(cfg: ClinicConfig, eng: Engine, hdr: Header, w: Walk, line: string, index: int,
                    classify: Classify): (r: Result<Walk>)
    requires WalkValid(w) && Valid(hdr.invoicedDate)
    ensures r.Ok? ==> WalkValid(r.value)
  {
    if !Eligible(line, index) then Ok(w)
    else
      match ItemStep(cfg, eng, hdr, w.cursor, line, classify)
      case Err(e) => Err(e)
      case Ok((c, None)) =>
        assert Valid(c.chargeDate) by { ItemStepDateValid(cfg, eng, hdr, w.cursor, line, classify); }
        Ok(Walk(c, w.items))
      case Ok((c, Some(rec))) =>
        assert Valid(c.chargeDate) by { ItemStepDateValid(cfg, eng, hdr, w.cursor, line, classify); }
        Ok(Walk(c, w.items + [rec]))
  }

  lemma ItemStepDateValid(cfg: ClinicConfig, eng: Engine, hdr: Header, cur: Cursor, line: string,
                          classify: Classify)
    requires Valid(cur.chargeDate) && Valid(hdr.invoicedDate)
    ensures var s := ItemStep(cfg, eng, hdr, cur, line, classify);
            s.Ok? ==> Valid(s.value.0.chargeDate)
  {
  }

  /** The first `n` lines of a section, walked in order; the first error stops the walk. */
  function WalkLines(cfg: ClinicConfig, eng: Engine, hdr: Header, w0: Walk, lines: seq<string>, n: nat,
                     classify: Classify): (r: Result<Walk>)
    requires n <= |lines| && WalkValid(w0) && Valid(hdr.invoicedDate)
    ensures r.Ok? ==> WalkValid(r.value)
  {
    if n == 0 then Ok(w0)
    else
      match WalkLines(cfg, eng, hdr, w0, lines, n - 1, classify)
      case Err(e) => Err(e)
      case Ok(w) => LineStep(cfg, eng, hdr, w, lines[n - 1], n - 1, classify)
  }

  /** Section `i` is walked with patient `names[i]`; a section without a name raises IndexError. */
  function WalkSections(cfg: ClinicConfig, eng: Engine, hdr: Header, w0: Walk, sections: seq<string>,
                        names: seq<string>, n: nat, classify: Classify): (r: Result<Walk>)
    requires n <= |sections| && WalkValid(w0) && Valid(hdr.invoicedDate)
    ensures r.Ok? ==> WalkValid(r.value)
  {
    if n == 0 then Ok(w0)
    else
      match WalkSections(cfg, eng, hdr, w0, sections, names, n - 1, classify)
      case Err(e) => Err(e)
      case Ok(w) =>
        if n - 1 >= |names| then Err("IndexError: list index out of range")
        else
          var lines := SplitLines(sections[n - 1]);
          WalkLines(cfg, eng, hdr, Walk(Cursor(w.cursor.chargeDate, names[n - 1]), w.items), lines, |lines|,
                    classify)
  }

  /** What a successful `parse_invoice` leaves behind. */
  datatype Parsed = Parsed(id: string, invoicedDate: Date, walk: Walk, name: string)

  /** The three header reads `parse_invoice` starts with. */
  datatype InvoiceHead = InvoiceHead(names: seq<string>, id: string, invoicedDate: Date)

  /** Patient names, invoice id and invoice date, read in that order; the first failure stops. */
  function ReadHead(cfg: ClinicConfig, eng: Engine, text: string): (r: Result<InvoiceHead>)
    ensures r.Ok? ==> Valid(r.value.invoicedDate) && r.value.names != []
    ensures r.Ok? <==> DogNames(cfg, eng, text).Ok? && InvoiceId(cfg, eng, text).Ok? && InvoicedDate(cfg, eng, text).Ok?
    ensures r.Ok? ==> r.value == InvoiceHead(DogNames(cfg, eng, text).value, InvoiceId(cfg, eng, text).value,
                                             InvoicedDate(cfg, eng, text).value)
  {
    match DogNames(cfg, eng, text)
    case Err(e) => Err(e)
    case Ok(names) =>
      match InvoiceId(cfg, eng, text)
      case Err(e) => Err(e)
      case Ok(id) =>
        match InvoicedDate(cfg, eng, text)
        case Err(e) => Err(e)
        case Ok(inv) => Ok(InvoiceHead(names, id, inv))
  }

  /** The walk over every itemized section, starting from the invoice date. */
  function WalkInvoice(cfg: ClinicConfig, eng: Engine, text: string, head: InvoiceHead, currDog: string,
                       classify: Classify): (r: Result<Walk>)
    requires Valid(head.invoicedDate)
    ensures r.Ok? ==> WalkValid(r.value)
  {
    var sections := ItemizedSections(cfg, eng, text);
    WalkSections(cfg, eng, Header(cfg.clinic, head.id, head.invoicedDate), Walk(Cursor(head.invoicedDate, currDog), []),
                 sections, head.names, |sections|, classify)
  }

  /**
   * `parse_invoice`: patient names, invoice id and invoice date must all be
   * found (in that order); then every section is walked, starting from the
   * invoice date, and the file is renamed.
   */
  function ParseInvoiceSpec(cfg: ClinicConfig, eng: Engine, text: string, currDog: string,
                            classify: Classify): (r: Result<Parsed>)
    ensures r.Ok? ==> Valid(r.value.invoicedDate) && WalkValid(r.value.walk)
  {
    match ReadHead(cfg, eng, text)
    case Err(e) => Err(e)
    case Ok(head) =>
      match WalkInvoice(cfg, eng, text, head, currDog, classify)
      case Err(e) => Err(e)
      case Ok(w) => Ok(Parsed(head.id, head.invoicedDate, w, CanonicalName(cfg.abrv, head.id, head.invoicedDate)))
  }

  // ---------------------------------------------------------------
  // Properties of the line walk
  // ---------------------------------------------------------------

  /** The first line of a section and lines under 60 characters change nothing. */
  lemma SkippedLinesChangeNothing(cfg: ClinicConfig, eng: Engine, hdr: Header, w: Walk, line: string, index: int,
                                  classify: Classify)
    requires WalkValid(w) && Valid(hdr.invoicedDate)
    requires index == 0 || |line| < 60
    ensures LineStep(cfg, eng, hdr, w, line, index, classify) == Ok(w)
  {
  }

  /**
   * The charge date carries forward: a line whose date pattern does not
   * match keeps the previous date, one that matches sets its own.
   */
  lemma ChargeDateCarries(cfg: ClinicConfig, eng: Engine, hdr: Header, cur: Cursor, line: string,
                          classify: Classify)
    requires Valid(cur.chargeDate) && Valid(hdr.invoicedDate)
    requires ItemStep(cfg, eng, hdr, cur, line, classify).Ok?
    ensures var next := ItemStep(cfg, eng, hdr, cur, line, classify).value.0;
            var found := eng.search(cfg.chargesDatePattern, Lower(line), false);
            (found.None? ==> next.chargeDate == cur.chargeDate) &&
            (found.Some? ==> Some(next.chargeDate) == ParseFirst(found.value, DateFormats))
  {
  }

  /**
   * The record built for a charge line carries the line's date, price and
   * patient, the invoice prefix followed by the charge text, and the
   * category of the first matching classifier row ("Other" when none does).
   */
  lemma ChargeRecordContents(hdr: Header, date: Date, price: real, dog: string, charge: string, capture: Capture,
                             score: Scorer)
    requires Valid(date) && Valid(hdr.invoicedDate)
    ensures var out := Describe(charge, BaseRecord(hdr, date, price, dog), date, capture, score);
            var k := FirstMatch(ProcedureMap, charge);
            out.Ok? &&
            DescriptionKey in out.value &&
            out.value[DescriptionKey] == Text(DescriptionPrefix(hdr.clinic, hdr.id, hdr.invoicedDate) + charge) &&
            CostTypeKey in out.value &&
            out.value[CostTypeKey] == Text(if k >= 0 then ProcedureMap[k].cost.Name() else Other.Name()) &&
            "COSTAMOUNT" in out.value && out.value["COSTAMOUNT"] == Amount(price) &&
            "ANIMALNAME" in out.value && out.value["ANIMALNAME"] == Text(dog) &&
            "COSTDATE" in out.value && out.value["COSTDATE"] == Text(FormatSlash(date))
  {
    var base := BaseRecord(hdr, date, price, dog);
    BaseRecordFields(hdr, date, price, dog);
    StampedKeysOutsideFields();
    DescribeStamped(charge, base, date, capture, score);
  }

  /** The record before classification holds the prefix as its description and the line's date, price and patient. */
  lemma BaseRecordFields(hdr: Header, date: Date, price: real, dog: string)
    requires Valid(date) && Valid(hdr.invoicedDate)
    ensures var base := BaseRecord(hdr, date, price, dog);
            Describable(base) && DescriptionKey in base &&
            OldDescription(base) == DescriptionPrefix(hdr.clinic, hdr.id, hdr.invoicedDate) &&
            "COSTAMOUNT" in base && base["COSTAMOUNT"] == Amount(price) &&
            "ANIMALNAME" in base && base["ANIMALNAME"] == Text(dog) &&
            "COSTDATE" in base && base["COSTDATE"] == Text(FormatSlash(date))
  {
  }

  /** The keys `parse_item` sets before classification are none of the classifier's. */
  lemma StampedKeysOutsideFields()
    ensures forall key | key in ["COSTAMOUNT", "ANIMALNAME", "COSTDATE"] ::
              key != CostTypeKey && key != DescriptionKey &&
              key !in TestFields && key !in VaccinationFields && key !in MedicalFields
  {
  }

  lemma DescribeStamped(charge: string, rec: ChargeRecord, date: Date, capture: Capture, score: Scorer)
    requires Valid(date) && Describable(rec) && DescriptionKey in rec
    requires forall key | key in ["COSTAMOUNT", "ANIMALNAME", "COSTDATE"] ::
               key != CostTypeKey && key != DescriptionKey &&
               key !in TestFields && key !in VaccinationFields && key !in MedicalFields
    ensures var out := Describe(charge, rec, date, capture, score);
            var k := FirstMatch(ProcedureMap, charge);
            out.Ok? &&
            DescriptionKey in out.value && out.value[DescriptionKey] == Text(OldDescription(rec) + charge) &&
            CostTypeKey in out.value &&
            out.value[CostTypeKey] == Text(if k >= 0 then ProcedureMap[k].cost.Name() else Other.Name()) &&
            forall key | key in ["COSTAMOUNT", "ANIMALNAME", "COSTDATE"] && key in rec ::
              key in out.value && out.value[key] == rec[key]
  {
    DescribeFails(charge, rec, date, capture, score);
    DescribeHeader(charge, rec, date, capture, score);
    forall key | key in ["COSTAMOUNT", "ANIMALNAME", "COSTDATE"] && key in rec
      ensures var out := Describe(charge, rec, date, capture, score).value;
              key in out && out[key] == rec[key]
    {
      DescribeKeepsOtherKeys(charge, rec, date, capture, score, key);
    }
  }

  /**
   * On a line whose date and price parse, `parse_item` moves the cursor to
   * the line's date and patient, drops the line when it has no charge text
   * and no positive price, and otherwise keeps exactly what the classifier
   * makes of the stamped record.
   */
  lemma ItemStepRecord(cfg: ClinicConfig, eng: Engine, hdr: Header, cur: Cursor, line: string, classify: Classify)
    requires Valid(cur.chargeDate) && Valid(hdr.invoicedDate)
    requires ChargeDate(cfg, eng, Lower(line)).Ok? && Price(cfg, eng, Lower(line)).Ok?
    ensures var item := Lower(line);
            var found := ChargeDate(cfg, eng, item).value;
            var date := if found.Some? then found.value else cur.chargeDate;
            var dog := ChargeDog(cfg, eng, item, cur.currDog);
            var price := Price(cfg, eng, item).value;
            var charge := Charge(cfg, eng, item);
            var step := ItemStep(cfg, eng, hdr, cur, line, classify);
            (charge == "" && price <= 0.0 ==> step == Ok((Cursor(date, dog), None))) &&
            (!(charge == "" && price <= 0.0) ==>
               var out := classify(charge, BaseRecord(hdr, date, price, dog), date);
               (step.Ok? <==> out.Ok?) && (out.Ok? ==> step.value == (Cursor(date, dog), Some(out.value))))
  {
    var item := Lower(line);
    var found := ChargeDate(cfg, eng, item).value;
    var date := if found.Some? then found.value else cur.chargeDate;
    assert NextCursor(cfg, eng, cur, item) == Ok(Cursor(date, ChargeDog(cfg, eng, item, cur.currDog)));
  }

  /** `get_description` never rejects the record `parse_item` builds: it always has a description. */
  lemma DescribesStampedRecord(hdr: Header, date: Date, price: real, dog: string, charge: string, capture: Capture,
                               score: Scorer)
    requires Valid(date) && Valid(hdr.invoicedDate)
    ensures var base := BaseRecord(hdr, date, price, dog);
            Classifying(capture, score)(charge, base, date) == Describe(charge, base, date, capture, score) &&
            Describe(charge, base, date, capture, score).Ok?
  {
    var base := BaseRecord(hdr, date, price, dog);
    BaseRecordFields(hdr, date, price, dog);
    DescribeFails(charge, base, date, capture, score);
  }

  /** Records are only ever appended, at most one per line. */
  lemma {:induction false} WalkLinesGrows(cfg: ClinicConfig, eng: Engine, hdr: Header, w0: Walk,
                                          lines: seq<string>, n: nat, classify: Classify)
    requires n <= |lines| && WalkValid(w0) && Valid(hdr.invoicedDate)
    requires WalkLines(cfg, eng, hdr, w0, lines, n, classify).Ok?
    ensures var w := WalkLines(cfg, eng, hdr, w0, lines, n, classify).value;
            |w0.items| <= |w.items| <= |w0.items| + n && w.items[..|w0.items|] == w0.items
  {
    if n > 0 {
      WalkLinesGrows(cfg, eng, hdr, w0, lines, n - 1, classify);
      var w := WalkLines(cfg, eng, hdr, w0, lines, n - 1, classify).value;
      var w' := WalkLines(cfg, eng, hdr, w0, lines, n, classify).value;
      assert |w.items| <= |w'.items| <= |w.items| + 1 && w'.items[..|w.items|] == w.items;
      assert w'.items[..|w0.items|] == w'.items[..|w.items|][..|w0.items|];
    }
  }

  /** More sections than patient names is an error; the walk never reads past the name list. */
  lemma MissingNameFails(cfg: ClinicConfig, eng: Engine, hdr: Header, w0: Walk, sections: seq<string>,
                         names: seq<string>, classify: Classify)
    requires WalkValid(w0) && Valid(hdr.invoicedDate) && |sections| > |names|
    ensures WalkSections(cfg, eng, hdr, w0, sections, names, |sections|, classify).Err?
  {
    MissingNameFailsFrom(cfg, eng, hdr, w0, sections, names, |sections|, classify);
  }

  lemma {:induction false} MissingNameFailsFrom(cfg: ClinicConfig, eng: Engine, hdr: Header, w0: Walk,
                                                sections: seq<string>, names: seq<string>, n: nat,
                                                classify: Classify)
    requires WalkValid(w0) && Valid(hdr.invoicedDate) && |names| < n <= |sections|
    ensures WalkSections(cfg, eng, hdr, w0, sections, names, n, classify).Err?
  {
    if n - 1 > |names| {
      MissingNameFailsFrom(cfg, eng, hdr, w0, sections, names, n - 1, classify);
    }
  }

  /** The header errors, in the order `parse_invoice` meets them. */
  lemma ParseInvoiceHeaderErrors(cfg: ClinicConfig, eng: Engine, text: string, currDog: string,
                                 classify: Classify)
    ensures eng.findAll(cfg.dogNamePattern, text, true) == [] ==>
              ParseInvoiceSpec(cfg, eng, text, currDog, classify).Err?
    ensures eng.search(cfg.invoicePattern, text, true).None? ==>
              ParseInvoiceSpec(cfg, eng, text, currDog, classify).Err?
    ensures eng.search(cfg.invoiceDatePattern, text, true).None? ==>
              ParseInvoiceSpec(cfg, eng, text, currDog, classify).Err?
  {
  }

  /** A parsed invoice is renamed `{abrv}_{id}_{YYYY-MM-DD}.pdf` from its own id and invoice date. */
  lemma ParsedName(cfg: ClinicConfig, eng: Engine, text: string, currDog: string, classify: Classify)
    requires ParseInvoiceSpec(cfg, eng, text, currDog, classify).Ok?
    ensures var p := ParseInvoiceSpec(cfg, eng, text, currDog, classify).value;
            p.name == cfg.abrv + "_" + p.id + "_" + FormatIso(p.invoicedDate) + ".pdf" &&
            Ok(p.id) == InvoiceId(cfg, eng, text) && Ok(p.invoicedDate) == InvoicedDate(cfg, eng, text)
  {
  }

  /** One step of the outer loop: section `n` is walked from where section `n - 1` left off. */
  lemma WalkSectionsNext(cfg: ClinicConfig, eng: Engine, hdr: Header, w0: Walk, sections: seq<string>,
                         names: seq<string>, n: nat, w: Walk, classify: Classify)
    requires n < |sections| && WalkValid(w0) && Valid(hdr.invoicedDate)
    requires WalkSections(cfg, eng, hdr, w0, sections, names, n, classify) == Ok(w)
    ensures n >= |names| ==> WalkSections(cfg, eng, hdr, w0, sections, names, n + 1, classify).Err?
    ensures n < |names| ==>
              var lines := SplitLines(sections[n]);
              WalkSections(cfg, eng, hdr, w0, sections, names, n + 1, classify) ==
              WalkLines(cfg, eng, hdr, Walk(Cursor(w.cursor.chargeDate, names[n]), w.items), lines, |lines|,
                        classify)
  {
  }

  /** Once a line fails, the rest of the section's walk fails. */
  lemma {:induction false} WalkLinesErrSticks(cfg: ClinicConfig, eng: Engine, hdr: Header, w0: Walk,
                                              lines: seq<string>, n: nat, m: nat, classify: Classify)
    requires n <= m <= |lines| && WalkValid(w0) && Valid(hdr.invoicedDate)
    requires WalkLines(cfg, eng, hdr, w0, lines, n, classify).Err?
    ensures WalkLines(cfg, eng, hdr, w0, lines, m, classify).Err?
    decreases m
  {
    if n < m {
      WalkLinesErrSticks(cfg, eng, hdr, w0, lines, n, m - 1, classify);
    }
  }

  /** Once a section fails, the whole walk fails. */
  lemma {:induction false} WalkSectionsErrSticks(cfg: ClinicConfig, eng: Engine, hdr: Header, w0: Walk,
                                                 sections: seq<string>, names: seq<string>, n: nat, m: nat,
                                                 classify: Classify)
    requires n <= m <= |sections| && WalkValid(w0) && Valid(hdr.invoicedDate)
    requires WalkSections(cfg, eng, hdr, w0, sections, names, n, classify).Err?
    ensures WalkSections(cfg, eng, hdr, w0, sections, names, m, classify).Err?
    decreases m
  {
    if n < m {
      WalkSectionsErrSticks(cfg, eng, hdr, w0, sections, names, n, m - 1, classify);
    }
  }

  // ---------------------------------------------------------------
  // The parser object
  // ---------------------------------------------------------------

  class InvoiceParser {
    const config: ClinicConfig
    const text: string
    var name: string
    var driveCompleted: string
    var driveIncomplete: string
    var id: Option<string>
    var invoicedDate: Option<Date>
    var chargeDate: Option<Date>
    var currDog: string
    var items: seq<ChargeRecord>

    /** `__init__`: the file name and the Drive folder names come from the abbreviation known at this point. */
    constructor(config: ClinicConfig, text: string, fileName: string)
      ensures this.config == config && this.text == text && name == fileName
      ensures driveCompleted == config.abrv + "_completed" && driveIncomplete == config.abrv + "_incomplete"
      ensures id.None? && invoicedDate.None? && chargeDate.None? && currDog == "" && items == []
    {
      this.config := config;
      this.text := text;
      name := fileName;
      driveCompleted := config.abrv + "_completed";
      driveIncomplete := config.abrv + "_incomplete";
      id := None;
      invoicedDate := None;
      chargeDate := None;
      currDog := "";
      items := [];
    }

    predicate HeaderSet()
      reads this
    {
      id.Some? && invoicedDate.Some? && chargeDate.Some? && Valid(invoicedDate.value) && Valid(chargeDate.value)
    }

    /** `get_itemized_section`. */
    method GetItemizedSection(eng: Engine) returns (sections: seq<string>)
      ensures sections == ItemizedSections(config, eng, text)
    {
      var starts := eng.matchStarts(config.itemizedBeginPattern, text);
      ghost var spec := ItemizedSections(config, eng, text);
      sections := [];
      var k := 0;
      while k < |starts|
        invariant 0 <= k <= |starts| == |spec|
        invariant sections == spec[..k]
      {
        var newText := CutSection(starts[k]);
        assert spec[..k + 1] == spec[..k] + [newText];
        sections := sections + [newText];
        k := k + 1;
      }
      assert spec[..k] == spec;
    }

    /** One pass of `get_itemized_section`: the text from `start` up to the end marker, wrapped lines joined if configured. */
    method CutSection(start: nat) returns (newText: string)
      ensures newText == Section(text, start, config.itemizedEnd, config.joinWrapped)
    {
      var startText := SuffixFrom(text, start);
      var endIndex := Find(startText, config.itemizedEnd);
      newText := PyPrefix(startText, endIndex);
      if config.joinWrapped {
        newText := ReduceWrapped(newText);
      }
    }

    /** `get_animal_name_charge`. */
    method GetAnimalNameCharge(eng: Engine, line: string)
      modifies this`currDog
      ensures currDog == ChargeDog(config, eng, line, old(currDog))
    {
      if config.chargesDogPattern != "" {
        var m := eng.search(config.chargesDogPattern, line, false);
        if m.Some? {
          currDog := m.value;
        }
      }
    }

    /** `parse_item`: one step of the walk on this parser's cursor. */
    method ParseItem(eng: Engine, line: string, classify: Classify)
      returns (r: Result<Option<ChargeRecord>>)
      requires HeaderSet()
      modifies this`chargeDate, this`currDog
      ensures var step := ItemStep(config, eng, Header(config.clinic, old(id.value), old(invoicedDate.value)),
                                   Cursor(old(chargeDate.value), old(currDog)), line, classify);
              (step.Err? <==> r.Err?) &&
              (step.Ok? ==> r == Ok(step.value.1) && chargeDate == Some(step.value.0.chargeDate) &&
                            currDog == step.value.0.currDog)
      ensures chargeDate.Some? && Valid(chargeDate.value)
    {
      ghost var hdr := Stamp();
      ghost var cur := Cursor(chargeDate.value, currDog);
      var item := Lower(line);
      var found := ChargeDate(config, eng, item);
      if found.Err? {
        return Err(found.error);
      }
      if found.value.Some? {
        chargeDate := found.value;
      }
      GetAnimalNameCharge(eng, item);
      ghost var next := Cursor(chargeDate.value, currDog);
      assert NextCursor(config, eng, cur, item) == Ok(next);
      r := ParseCharge(eng, item, classify);
      assert ItemStep(config, eng, hdr, cur, line, classify) ==
             if r.Err? then Err(r.error) else Ok((next, r.value));
    }

    /** The rest of `parse_item`, once the cursor is updated: price, charge text and classification. */
    method ParseCharge(eng: Engine, item: string, classify: Classify) returns (r: Result<Option<ChargeRecord>>)
      requires HeaderSet()
      ensures r == ChargeItem(config, eng, Stamp(), Cursor(chargeDate.value, currDog), item, classify)
    {
      var price := Price(config, eng, item);
      if price.Err? {
        return Err(price.error);
      }
      var charge := Charge(config, eng, item);
      if charge == "" && price.value <= 0.0 {
        return Ok(None);
      }
      var charges := BaseRecord(Header(config.clinic, id.value, invoicedDate.value), chargeDate.value, price.value,
                                currDog);
      var described := classify(charge, charges, chargeDate.value);
      if described.Err? {
        return Err(described.error);
      }
      r := Ok(Some(described.value));
    }

    /** The header fields a walk is stamped with. */
    function Stamp(): Header
      reads this
      requires HeaderSet()
    {
      Header(config.clinic, id.value, invoicedDate.value)
    }

    /**
     * The inner loop of `parse_invoice`: every eligible line of one section,
     * appended to `collected`.
     */
    method ParseSection(eng: Engine, lines: seq<string>, classify: Classify,
                        collected: seq<ChargeRecord>, ghost hdr: Header, ghost w0: Walk)
      returns (r: Result<seq<ChargeRecord>>)
      requires HeaderSet() && hdr == Stamp() && w0 == Walk(Cursor(chargeDate.value, currDog), collected)
      modifies this`chargeDate, this`currDog
      ensures HeaderSet()
      ensures var spec := WalkLines(config, eng, hdr, w0, lines, |lines|, classify);
              (spec.Err? <==> r.Err?) &&
              (spec.Ok? ==> spec.value == Walk(Cursor(chargeDate.value, currDog), r.value))
    {
      var acc := collected;
      var i := 0;
      while i < |lines|
        invariant 0 <= i <= |lines|
        invariant HeaderSet() && Stamp() == hdr
        invariant WalkLines(config, eng, hdr, w0, lines, i, classify) == Ok(Walk(Cursor(chargeDate.value, currDog), acc))
      {
        if i != 0 && |lines[i]| >= 60 {
          var charges := ParseItem(eng, lines[i], classify);
          if charges.Err? {
            assert WalkLines(config, eng, hdr, w0, lines, |lines|, classify).Err? by {
              WalkLinesErrSticks(config, eng, hdr, w0, lines, i + 1, |lines|, classify);
            }
            return Err(charges.error);
          }
          if charges.value.Some? {
            acc := acc + [charges.value.value];
          }
        }
        i := i + 1;
      }
      r := Ok(acc);
    }

    /** One pass of the outer loop of `parse_invoice`: section `index` with patient `names[index]`. */
    method ParseNamedSection(eng: Engine, sections: seq<string>, names: seq<string>, index: nat, classify: Classify,
                             collected: seq<ChargeRecord>, ghost hdr: Header, ghost w0: Walk)
      returns (r: Result<seq<ChargeRecord>>)
      requires index < |sections| && HeaderSet() && hdr == Stamp() && WalkValid(w0)
      requires WalkSections(config, eng, hdr, w0, sections, names, index, classify) ==
               Ok(Walk(Cursor(chargeDate.value, currDog), collected))
      modifies this`chargeDate, this`currDog
      ensures HeaderSet() && Stamp() == hdr
      ensures var spec := WalkSections(config, eng, hdr, w0, sections, names, index + 1, classify);
              (spec.Err? <==> r.Err?) &&
              (spec.Ok? ==> spec.value == Walk(Cursor(chargeDate.value, currDog), r.value))
      ensures r.Err? ==> WalkSections(config, eng, hdr, w0, sections, names, |sections|, classify).Err?
    {
      WalkSectionsNext(config, eng, hdr, w0, sections, names, index, Walk(Cursor(chargeDate.value, currDog), collected),
                       classify);
      if index >= |names| {
        WalkSectionsErrSticks(config, eng, hdr, w0, sections, names, index + 1, |sections|, classify);
        return Err("IndexError: list index out of range");
      }
      currDog := names[index];
      var lines := SplitLines(sections[index]);
      ghost var wIn := Walk(Cursor(chargeDate.value, currDog), collected);
      r := ParseSection(eng, lines, classify, collected, hdr, wIn);
      if r.Err? {
        WalkSectionsErrSticks(config, eng, hdr, w0, sections, names, index + 1, |sections|, classify);
      }
    }

    /** The outer loop of `parse_invoice`. */
    method ParseSections(eng: Engine, sections: seq<string>, names: seq<string>, classify: Classify,
                         ghost hdr: Header, ghost w0: Walk)
      returns (r: Result<seq<ChargeRecord>>)
      requires HeaderSet() && hdr == Stamp() && w0 == Walk(Cursor(chargeDate.value, currDog), [])
      modifies this`chargeDate, this`currDog
      ensures HeaderSet()
      ensures var spec := WalkSections(config, eng, hdr, w0, sections, names, |sections|, classify);
              (spec.Err? <==> r.Err?) &&
              (spec.Ok? ==> spec.value == Walk(Cursor(chargeDate.value, currDog), r.value))
    {
      var collected: seq<ChargeRecord> := [];
      var index := 0;
      while index < |sections|
        invariant 0 <= index <= |sections|
        invariant WalkValid(w0) && Valid(hdr.invoicedDate)
        invariant HeaderSet() && Stamp() == hdr
        invariant WalkSections(config, eng, hdr, w0, sections, names, index, classify) ==
                  Ok(Walk(Cursor(chargeDate.value, currDog), collected))
      {
        var res := ParseNamedSection(eng, sections, names, index, classify, collected, hdr, w0);
        if res.Err? {
          return Err(res.error);
        }
        collected := res.value;
        index := index + 1;
      }
      r := Ok(collected);
    }

    /** The header reads of `parse_invoice`; the invoice id is stored before the invoice date is read. */
    method ReadInvoiceHead(eng: Engine) returns (r: Result<InvoiceHead>)
      modifies this`id, this`invoicedDate
      ensures r == ReadHead(config, eng, text)
      ensures r.Ok? ==> id == Some(r.value.id) && invoicedDate == Some(r.value.invoicedDate)
    {
      var names := DogNames(config, eng, text);
      if names.Err? {
        return Err(names.error);
      }
      var invoiceId := InvoiceId(config, eng, text);
      if invoiceId.Err? {
        return Err(invoiceId.error);
      }
      id := Some(invoiceId.value);
      var inv := InvoicedDate(config, eng, text);
      if inv.Err? {
        return Err(inv.error);
      }
      invoicedDate := Some(inv.value);
      r := Ok(InvoiceHead(names.value, invoiceId.value, inv.value));
    }

    /** `parse_invoice`. */
    method ParseInvoice(eng: Engine, classify: Classify) returns (r: Result<()>)
      modifies this`id, this`invoicedDate, this`chargeDate, this`currDog, this`items, this`name
      ensures var spec := ParseInvoiceSpec(config, eng, text, old(currDog), classify);
              (spec.Err? <==> r.Err?) &&
              (spec.Ok? ==> items == spec.value.walk.items && name == spec.value.name &&
                            id == Some(spec.value.id) && invoicedDate == Some(spec.value.invoicedDate) &&
                            chargeDate == Some(spec.value.walk.cursor.chargeDate) &&
                            currDog == spec.value.walk.cursor.currDog) &&
              (spec.Err? ==> items == old(items) && name == old(name))
    {
      var head := ReadInvoiceHead(eng);
      if head.Err? {
        return Err(head.error);
      }
      var sections := GetItemizedSection(eng);
      var newName := CanonicalName(config.abrv, head.value.id, head.value.invoicedDate);
      chargeDate := Some(head.value.invoicedDate);
      ghost var hdr := Header(config.clinic, head.value.id, head.value.invoicedDate);
      ghost var w0 := Walk(Cursor(head.value.invoicedDate, old(currDog)), []);
      var walked := ParseSections(eng, sections, head.value.names, classify, hdr, w0);
      if walked.Err? {
        return Err(walked.error);
      }
      items := walked.value;
      name := newName;
      r := Ok(());
    }
  }

  // ---------------------------------------------------------------
  // The AI parser: the same records from a table of extracted rows
  // ---------------------------------------------------------------

  /**
   * One row of the table the language model returns, after `pd.to_datetime`
   * on its date column. `pd.read_csv` reads an empty description field as
   * NaN, which is `None` here.
   */
  datatype AiRow = AiRow(clinic: string, invoiceNumber: nat, date: Date, dogName: string,
                         description: Option<string>, totalPrice: real)

  predicate RowsValid(rows: seq<AiRow>) {
    forall i :: 0 <= i < |rows| ==> Valid(rows[i].date)
  }

  /** Chronological order on calendar dates. */
  predicate DateLe(a: Date, b: Date) {
    a.year < b.year || (a.year == b.year && (a.month < b.month || (a.month == b.month && a.day <= b.day)))
  }

  /** `df["date"].max()`. */
  function MaxDate(rows: seq<AiRow>): (r: Date)
    requires rows != []
    ensures exists i :: 0 <= i < |rows| && rows[i].date == r
    ensures forall i :: 0 <= i < |rows| ==> DateLe(rows[i].date, r)
  {
    if |rows| == 1 then rows[0].date
    else
      var m := MaxDate(rows[1..]);
      assert forall i :: 1 <= i < |rows| ==> rows[i] == rows[1..][i - 1];
      if DateLe(m, rows[0].date) then rows[0].date else m
  }

  /** `df["invoiceNumber"].min()`. */
  function MinId(rows: seq<AiRow>): (r: nat)
    requires rows != []
    ensures exists i :: 0 <= i < |rows| && rows[i].invoiceNumber == r
    ensures forall i :: 0 <= i < |rows| ==> r <= rows[i].invoiceNumber
  {
    if |rows| == 1 then rows[0].invoiceNumber
    else
      var m := MinId(rows[1..]);
      assert forall i :: 1 <= i < |rows| ==> rows[i] == rows[1..][i - 1];
      if rows[0].invoiceNumber <= m then rows[0].invoiceNumber else m
  }

  /** The header a row's record is stamped with: that row's own clinic, invoice number and date. */
  function RowHeader(row: AiRow): Header {
    Header(row.clinic, NatToString(row.invoiceNumber), row.date)
  }

  const NaNDescription := "TypeError: expected string or bytes-like object"

  /**
   * `AIParser.parse_item`: a row with an empty description and no positive
   * price yields an empty record, which is still collected. A NaN
   * description is truthy, so its row goes on to `get_description`, whose
   * `re.search` raises on it. Any other row is stamped with its own header
   * and handed to the classifier.
   */
  function AiItem(row: AiRow, classify: Classify): (r: Result<ChargeRecord>)
    requires Valid(row.date)
  {
    match row.description
    case None => Err(NaNDescription)
    case Some(text) =>
      if text == "" && row.totalPrice <= 0.0 then Ok(map[])
      else classify(text, BaseRecord(RowHeader(row), row.date, row.totalPrice, row.dogName), row.date)
  }

  /** The `df.apply` over the rows: one record per row, in row order; the first row that fails ends the table. */
  function AiItems(table: seq<AiRow>, classify: Classify): (r: Result<seq<ChargeRecord>>)
    requires RowsValid(table)
    ensures r.Ok? ==> |r.value| == |table|
  {
    if table == [] then Ok([])
    else
      match AiItems(table[..|table| - 1], classify)
      case Err(e) => Err(e)
      case Ok(prefix) =>
        match AiItem(table[|table| - 1], classify)
        case Err(e) => Err(e)
        case Ok(rec) => Ok(prefix + [rec])
  }

  /** The table is collected exactly when every row is. */
  lemma {:induction false} AiItemsOk(table: seq<AiRow>, classify: Classify)
    requires RowsValid(table)
    ensures AiItems(table, classify).Ok? <==> forall i :: 0 <= i < |table| ==> AiItem(table[i], classify).Ok?
  {
    if table != [] {
      var front := table[..|table| - 1];
      AiItemsOk(front, classify);
      assert forall i :: 0 <= i < |front| ==> front[i] == table[i];
    }
  }

  /** Record `i` of a collected table is the record of row `i`. */
  lemma {:induction false} AiItemsAt(table: seq<AiRow>, classify: Classify, i: int)
    requires RowsValid(table) && 0 <= i < |table| && AiItems(table, classify).Ok?
    ensures AiItem(table[i], classify).Ok? && AiItems(table, classify).value[i] == AiItem(table[i], classify).value
  {
    if i < |table| - 1 {
      AiItemsAt(table[..|table| - 1], classify, i);
    }
  }

  /** One more row: its record is appended, or its error ends the table. */
  lemma AiItemsStep(table: seq<AiRow>, i: int, classify: Classify)
    requires RowsValid(table) && 0 <= i < |table| && AiItems(table[..i], classify).Ok?
    ensures AiItem(table[i], classify).Err? ==> AiItems(table[..i + 1], classify) == Err(AiItem(table[i], classify).error)
    ensures AiItem(table[i], classify).Ok? ==>
              AiItems(table[..i + 1], classify) == Ok(AiItems(table[..i], classify).value + [AiItem(table[i], classify).value])
  {
    assert table[..i + 1][..i] == table[..i];
  }

  /** Once a prefix of the table fails, every longer prefix fails with the same error. */
  lemma {:induction false} AiItemsErrSticks(table: seq<AiRow>, n: nat, m: nat, classify: Classify)
    requires RowsValid(table) && n <= m <= |table|
    requires AiItems(table[..n], classify).Err?
    ensures AiItems(table[..m], classify) == AiItems(table[..n], classify)
    decreases m
  {
    if n < m {
      AiItemsErrSticks(table, n, m - 1, classify);
      assert table[..m][..m - 1] == table[..m - 1];
    }
  }

  /**
   * For any classifier, a NaN description fails the table; when the
   * classifier accepts every other row, that is the only way it fails.
   */
  lemma AiItemsNaN(table: seq<AiRow>, classify: Classify)
    requires RowsValid(table)
    requires forall i :: 0 <= i < |table| && table[i].description.Some? ==> AiItem(table[i], classify).Ok?
    ensures AiItems(table, classify).Ok? <==> forall i :: 0 <= i < |table| ==> table[i].description.Some?
  {
    forall i | 0 <= i < |table|
      ensures AiItem(table[i], classify).Ok? <==> table[i].description.Some?
    {
    }
    AiItemsOk(table, classify);
  }

  /** The row table `parse_invoice` works on: the given one, or the model's answer when none is given. */
  function AiTable(rows: seq<AiRow>, modelText: string, modelRows: seq<AiRow>): (r: Result<seq<AiRow>>)
    ensures rows != [] ==> r == Ok(rows)
    ensures rows == [] ==> (r.Err? <==> modelText == "") && (r.Ok? ==> r.value == modelRows)
  {
    if rows != [] then Ok(rows)
    else if modelText == "" then Err("Gemini failed to find the desired information")
    else Ok(modelRows)
  }

  /** What `AIParser.parse_invoice` leaves behind. */
  datatype AiParsed = AiParsed(clinic: string, abrv: string, id: nat, invoicedDate: Date, items: seq<ChargeRecord>,
                               name: string, last: AiRow)

  /**
   * `AIParser.parse_invoice`: the clinic is the first row's, the invoice
   * date the latest row date, the id the smallest invoice number, and there
   * is one collected record per row.
   */
  function AiParseSpec(rows: seq<AiRow>, modelText: string, modelRows: seq<AiRow>, classify: Classify)
    : (r: Result<AiParsed>)
    requires RowsValid(rows) && RowsValid(modelRows)
  {
    match AiTable(rows, modelText, modelRows)
    case Err(e) => Err(e)
    case Ok(table) =>
      if table == [] then Err("IndexError: index 0 is out of bounds for axis 0 with size 0")
      else AiParseTable(table, classify)
  }

  /** `AIParser.parse_invoice` once it has a non-empty table. */
  function AiParseTable(table: seq<AiRow>, classify: Classify): (r: Result<AiParsed>)
    requires table != [] && RowsValid(table)
  {
    var clinic := table[0].clinic;
    var abrv := Initials(SplitWs(clinic));
    var inv := MaxDate(table);
    var id := MinId(table);
    match AiItems(table, classify)
    case Err(e) => Err(e)
    case Ok(items) =>
      Ok(AiParsed(clinic, abrv, id, inv, items, CanonicalName(abrv, NatToString(id), inv), table[|table| - 1]))
  }

  /** Classified by `get_description`, a row raises exactly when its description is NaN. */
  lemma AiItemClassified(row: AiRow, capture: Capture, score: Scorer)
    requires Valid(row.date)
    ensures AiItem(row, Classifying(capture, score)).Ok? <==> row.description.Some?
  {
    if row.description.Some? && !(row.description.value == "" && row.totalPrice <= 0.0) {
      DescribesStampedRecord(RowHeader(row), row.date, row.totalPrice, row.dogName, row.description.value, capture, score);
    }
  }

  /**
   * A row with a NaN description raises whatever its price; otherwise
   * exactly the rows with an empty description and no positive price give
   * an empty record.
   */
  lemma AiItemEmpty(row: AiRow, capture: Capture, score: Scorer)
    requires Valid(row.date)
    ensures AiItem(row, Classifying(capture, score)).Err? <==> row.description.None?
    ensures row.description.None? ==> AiItem(row, Classifying(capture, score)) == Err(NaNDescription)
    ensures AiItem(row, Classifying(capture, score)).Ok? ==>
              (AiItem(row, Classifying(capture, score)).value == map[] <==>
                 row.description == Some("") && row.totalPrice <= 0.0)
  {
    if row.description.Some? && !(row.description.value == "" && row.totalPrice <= 0.0) {
      ChargeRecordContents(RowHeader(row), row.date, row.totalPrice, row.dogName, row.description.value, capture, score);
      assert CostTypeKey in AiItem(row, Classifying(capture, score)).value;
    }
  }

  /**
   * A row's record carries that row's own clinic, invoice number and date
   * in its description prefix, not the invoice-level ones, and its price
   * and patient.
   */
  lemma AiItemContents(row: AiRow, capture: Capture, score: Scorer)
    requires Valid(row.date) && row.description.Some? && !(row.description.value == "" && row.totalPrice <= 0.0)
    ensures var out := AiItem(row, Classifying(capture, score));
            out.Ok? &&
            DescriptionKey in out.value &&
            out.value[DescriptionKey] == Text("[" + row.clinic + " - " + NatToString(row.invoiceNumber) + " - " +
                                              FormatIso(row.date) + "] " + row.description.value) &&
            "COSTAMOUNT" in out.value && out.value["COSTAMOUNT"] == Amount(row.totalPrice) &&
            "ANIMALNAME" in out.value && out.value["ANIMALNAME"] == Text(row.dogName) &&
            "COSTDATE" in out.value && out.value["COSTDATE"] == Text(FormatSlash(row.date))
  {
    ChargeRecordContents(RowHeader(row), row.date, row.totalPrice, row.dogName, row.description.value, capture, score);
    RowPrefix(row);
  }

  /** The prefix a row's description gets, written out. */
  lemma RowPrefix(row: AiRow)
    requires Valid(row.date)
    ensures DescriptionPrefix(row.clinic, NatToString(row.invoiceNumber), row.date) ==
            "[" + row.clinic + " - " + NatToString(row.invoiceNumber) + " - " + FormatIso(row.date) + "] "
  {
  }

  /** A parsed table is renamed from the latest date and the smallest id, and every row is accounted for. */
  lemma AiParsedShape(rows: seq<AiRow>, modelText: string, modelRows: seq<AiRow>, classify: Classify)
    requires RowsValid(rows) && RowsValid(modelRows)
    requires AiParseSpec(rows, modelText, modelRows, classify).Ok?
    ensures var p := AiParseSpec(rows, modelText, modelRows, classify).value;
            var table := if rows != [] then rows else modelRows;
            |p.items| == |table| && table != [] &&
            (forall i :: 0 <= i < |table| ==> DateLe(table[i].date, p.invoicedDate) && p.id <= table[i].invoiceNumber) &&
            p.name == p.abrv + "_" + NatToString(p.id) + "_" + FormatIso(p.invoicedDate) + ".pdf" &&
            (forall i :: 0 <= i < |p.abrv| ==> IsUpper(p.abrv[i]))
  {
    var table := if rows != [] then rows else modelRows;
    InitialsAreFiltered(SplitWs(table[0].clinic));
  }

  /** Without a table and with an empty answer from the model, nothing is parsed. */
  lemma AiEmptyAnswerFails(modelRows: seq<AiRow>, classify: Classify)
    requires RowsValid(modelRows)
    ensures AiParseSpec([], "", modelRows, classify).Err?
  {
  }

  class AiParser {
    const text: string
    var name: string
    var driveCompleted: string
    var driveIncomplete: string
    var clinic: string
    var abrv: string
    var id: Option<nat>
    var invoicedDate: Option<Date>
    var chargeDate: Option<Date>
    var currDog: string
    var items: seq<ChargeRecord>

    /**
     * `InvoiceParser.__init__` as `AIParser` inherits it: the abbreviation
     * is still empty, so the Drive folders are "_completed" and "_incomplete".
     */
    constructor(text: string, fileName: string)
      ensures this.text == text && name == fileName && clinic == "" && abrv == ""
      ensures driveCompleted == "_completed" && driveIncomplete == "_incomplete"
      ensures id.None? && invoicedDate.None? && chargeDate.None? && currDog == "" && items == []
    {
      this.text := text;
      name := fileName;
      clinic := "";
      abrv := "";
      driveCompleted := "_completed";
      driveIncomplete := "_incomplete";
      id := None;
      invoicedDate := None;
      chargeDate := None;
      currDog := "";
      items := [];
    }

    /** `AIParser.parse_item`: the row sets the current patient and charge date. */
    method ParseItem(row: AiRow, classify: Classify) returns (r: Result<ChargeRecord>)
      requires Valid(row.date)
      modifies this`currDog, this`chargeDate
      ensures r == AiItem(row, classify)
      ensures currDog == row.dogName && chargeDate == Some(row.date)
    {
      currDog := row.dogName;
      chargeDate := Some(row.date);
      if row.description.None? {
        return Err(NaNDescription);
      }
      var description := row.description.value;
      if description == "" && row.totalPrice <= 0.0 {
        return Ok(map[]);
      }
      var charges := BaseRecord(RowHeader(row), row.date, row.totalPrice, currDog);
      r := classify(description, charges, row.date);
    }

    /** `AIParser.parse_invoice` over a given table, or over the model's answer when the table is empty. */
    method ParseInvoice(rows: seq<AiRow>, modelText: string, modelRows: seq<AiRow>, classify: Classify)
      returns (r: Result<()>)
      requires RowsValid(rows) && RowsValid(modelRows)
      modifies this`clinic, this`abrv, this`invoicedDate, this`id, this`currDog, this`chargeDate, this`items, this`name
      ensures var spec := AiParseSpec(rows, modelText, modelRows, classify);
              (spec.Err? <==> r.Err?) &&
              (spec.Ok? ==> clinic == spec.value.clinic && abrv == spec.value.abrv && id == Some(spec.value.id) &&
                            invoicedDate == Some(spec.value.invoicedDate) && items == spec.value.items &&
                            name == spec.value.name && currDog == spec.value.last.dogName &&
                            chargeDate == Some(spec.value.last.date)) &&
              (spec.Err? ==> items == old(items) && name == old(name))
    {
      var table := rows;
      if table == [] {
        if modelText == "" {
          return Err("Gemini failed to find the desired information");
        }
        table := modelRows;
      }
      if table == [] {
        return Err("IndexError: index 0 is out of bounds for axis 0 with size 0");
      }
      assert AiTable(rows, modelText, modelRows) == Ok(table);
      r := ParseTable(table, classify);
    }

    /** The body of `AIParser.parse_invoice` once the table is non-empty. */
    method ParseTable(table: seq<AiRow>, classify: Classify) returns (r: Result<()>)
      requires table != [] && RowsValid(table)
      modifies this`clinic, this`abrv, this`invoicedDate, this`id, this`currDog, this`chargeDate, this`items, this`name
      ensures var p := AiParseTable(table, classify);
              (p.Err? <==> r.Err?) &&
              (p.Ok? ==> clinic == p.value.clinic && abrv == p.value.abrv && id == Some(p.value.id) &&
                         invoicedDate == Some(p.value.invoicedDate) && items == p.value.items &&
                         name == p.value.name && currDog == p.value.last.dogName &&
                         chargeDate == Some(p.value.last.date)) &&
              (p.Err? ==> items == old(items) && name == old(name))
    {
      SetTableHeader(table);
      var invoiceItems := ParseRows(table, classify);
      if invoiceItems.Err? {
        return Err(invoiceItems.error);
      }
      name := CanonicalName(abrv, NatToString(id.value), invoicedDate.value);
      items := invoiceItems.value;
      r := Ok(());
    }

    /** The invoice-level values `AIParser.parse_invoice` reads off the table. */
    method SetTableHeader(table: seq<AiRow>)
      requires table != []
      modifies this`clinic, this`abrv, this`invoicedDate, this`id
      ensures clinic == table[0].clinic && abrv == Initials(SplitWs(table[0].clinic))
      ensures invoicedDate == Some(MaxDate(table)) && id == Some(MinId(table))
    {
      clinic := table[0].clinic;
      abrv := MakeClinicAbbreviation(clinic);
      invoicedDate := Some(MaxDate(table));
      id := Some(MinId(table));
    }

    /** The `df.apply` over the rows: one collected record per row, empty ones included. */
    method ParseRows(table: seq<AiRow>, classify: Classify) returns (r: Result<seq<ChargeRecord>>)
      requires table != [] && RowsValid(table)
      modifies this`currDog, this`chargeDate
      ensures r == AiItems(table, classify)
      ensures r.Ok? ==> currDog == table[|table| - 1].dogName && chargeDate == Some(table[|table| - 1].date)
    {
      var collected := [];
      var i := 0;
      while i < |table|
        invariant 0 <= i <= |table|
        invariant AiItems(table[..i], classify) == Ok(collected)
        invariant i > 0 ==> currDog == table[i - 1].dogName && chargeDate == Some(table[i - 1].date)
      {
        var charge := ParseItem(table[i], classify);
        AiItemsStep(table, i, classify);
        if charge.Err? {
          assert AiItems(table[..|table|], classify) == Err(charge.error) by {
            AiItemsErrSticks(table, i + 1, |table|, classify);
          }
          assert table[..|table|] == table;
          return Err(charge.error);
        }
        collected := collected + [charge.value];
        i := i + 1;
      }
      assert table[..|table|] == table;
      r := Ok(collected);
    }
  }

  // ---------------------------------------------------------------
  // get_parser
  // ---------------------------------------------------------------

  datatype ParserKind = WaipioKind | WahiawaKind | VcaKind | AnimalHouseKind | MililaniKind | AiKind

  /** The signature table, in the order it is tried. */
  const ParserSignatures: seq<(string, ParserKind)> := [
    ("Waipio Pet Clinic", WaipioKind),
    ("Wahiawa Pet Hospital", WahiawaKind),
    ("VCA ", VcaKind),
    ("Animal House Veterinary Center", AnimalHouseKind),
    ("Mililani Mauka Veterinary Clinic", MililaniKind)]

  /** The class attributes of each parser. */
  function ConfigOf(kind: ParserKind): ClinicConfig {
    match kind
    case WaipioKind => WaipioConfig
    case WahiawaKind => WahiawaConfig
    case VcaKind => VcaConfig
    case AnimalHouseKind => AnimalHouseConfig
    case MililaniKind => MililaniConfig
    case AiKind => BaseConfig
  }

  /** The index of the first signature found in the text, or -1. */
  function FirstSignature(sigs: seq<(string, ParserKind)>, txt: string): (k: int)
    ensures -1 <= k < |sigs|
    ensures k >= 0 ==> Contains(txt, sigs[k].0)
    ensures forall j :: 0 <= j < |sigs| && (k < 0 || j < k) ==> !Contains(txt, sigs[j].0)
  {
    if sigs == [] then -1
    else if Contains(txt, sigs[0].0) then 0
    else
      var k := FirstSignature(sigs[1..], txt);
      assert forall j :: 1 <= j < |sigs| ==> sigs[j] == sigs[1..][j - 1];
      if k < 0 then -1 else k + 1
  }

  /** `re.search(r"Animal|Waipio|Wahiawa|Mililani", clinic_regex)`: these parsers reread the PDF in layout mode. */
  predicate NeedsLayout(signature: string) {
    Contains(signature, "Animal") || Contains(signature, "Waipio") || Contains(signature, "Wahiawa") ||
    Contains(signature, "Mililani")
  }

  /** The text after the last "/". */
  function LastComponent(path: string): (r: string)
    ensures '/' !in r
    ensures |r| <= |path| && r == path[|path| - |r|..]
    ensures |r| < |path| ==> path[|path| - |r| - 1] == '/'
  {
    if path == [] then []
    else if path[|path| - 1] == '/' then []
    else LastComponent(path[..|path| - 1]) + [path[|path| - 1]]
  }

  /**
   * `PurePosixPath(path).name`: the last component of the path, where
   * `pathlib` drops empty components (repeated or trailing "/") and "."
   * components; "" when no component is left.
   */
  function PathName(path: string): (r: string)
    ensures '/' !in r && r != "."
    ensures |r| <= |path|
    decreases |path|
  {
    var last := LastComponent(path);
    if last != "" && last != "." then last
    else if |last| == |path| then ""
    else PathName(path[..|path| - |last| - 1])
  }

  /**
   * A trailing "/" or "/." does not change the name, and a plain file
   * name placed under any directory is its own name.
   */
  lemma PathNameRule(dir: string, name: string)
    ensures PathName(dir + "/") == PathName(dir)
    ensures PathName(dir + "/.") == PathName(dir)
    ensures name != "" && name != "." && '/' !in name ==> PathName(name) == name && PathName(dir + "/" + name) == name
  {
    assert LastComponent(dir + "/") == "";
    assert (dir + "/")[..|dir|] == dir;
    assert LastComponent(dir + "/.") == "." by {
      assert (dir + "/.")[..|dir| + 1] == dir + "/";
    }
    assert (dir + "/.")[..|dir|] == dir;
    if name != "" && name != "." && '/' !in name {
      LastComponentOf(dir, name);
      LastComponentOf("", name);
    }
  }

  /** The text after the last "/" of `dir/name`, for a name with no "/". */
  lemma {:induction false} LastComponentOf(dir: string, name: string)
    requires '/' !in name
    ensures LastComponent(dir + "/" + name) == name
    ensures dir == "" ==> LastComponent(name) == name
    decreases |name|
  {
    if name != [] {
      var n := |name| - 1;
      LastComponentOf(dir, name[..n]);
      assert (dir + "/" + name)[..|dir + "/" + name| - 1] == dir + "/" + name[..n];
      assert name[..n] + [name[n]] == name;
      if dir == "" {
        assert name[..|name| - 1] == name[..n];
      }
    } else {
      assert (dir + "/" + name) == dir + "/";
    }
  }

  /** The parser `get_parser` builds: its kind, the text it is given and the file name it records. */
  datatype Choice = Choice(kind: ParserKind, text: string, name: string)

  /**
   * `get_parser` on already extracted text: the first signature in table
   * order that occurs in the plain text picks the parser, and the layout
   * text replaces the plain text for every parser whose signature names
   * Animal, Waipio, Wahiawa or Mililani; a given file name replaces the
   * path's name.
   */
  function ChooseParser(plain: string, layout: string, pathName: string, filename: string): (c: Choice)
    ensures c.name == (if filename != "" then PathName(filename) else pathName)
  {
    var k := FirstSignature(ParserSignatures, plain);
    var name := if filename != "" then PathName(filename) else pathName;
    if k < 0 then Choice(AiKind, plain, name)
    else Choice(ParserSignatures[k].1, if NeedsLayout(ParserSignatures[k].0) then layout else plain, name)
  }

  /** Which signatures reread the PDF in layout mode: all but "VCA ". */
  lemma SignaturesLayout()
    ensures NeedsLayout(ParserSignatures[0].0) && NeedsLayout(ParserSignatures[1].0)
    ensures !NeedsLayout(ParserSignatures[2].0)
    ensures NeedsLayout(ParserSignatures[3].0) && NeedsLayout(ParserSignatures[4].0)
  {
    assert StartsAt(ParserSignatures[0].0, 0, "Waipio");
    assert StartsAt(ParserSignatures[1].0, 0, "Wahiawa");
    assert StartsAt(ParserSignatures[3].0, 0, "Animal");
    assert StartsAt(ParserSignatures[4].0, 0, "Mililani");
  }

  /**
   * The dispatch rule: the AI parser exactly when no signature occurs,
   * otherwise the parser of the first signature that occurs, with layout
   * text for every clinic except VCA.
   */
  lemma ChooseParserRule(plain: string, layout: string, pathName: string, filename: string)
    ensures var c := ChooseParser(plain, layout, pathName, filename);
            (c.kind == AiKind <==> forall j :: 0 <= j < |ParserSignatures| ==> !Contains(plain, ParserSignatures[j].0)) &&
            (c.kind != AiKind ==> exists k :: 0 <= k < |ParserSignatures| && ParserSignatures[k].1 == c.kind &&
                                   Contains(plain, ParserSignatures[k].0) &&
                                   forall j :: 0 <= j < k ==> !Contains(plain, ParserSignatures[j].0)) &&
            (c.kind in {AiKind, VcaKind} ==> c.text == plain) &&
            (c.kind !in {AiKind, VcaKind} ==> c.text == layout)
  {
    SignaturesLayout();
    var k := FirstSignature(ParserSignatures, plain);
    if k >= 0 {
      assert ParserSignatures[k].1 == ChooseParser(plain, layout, pathName, filename).kind;
    }
  }

  /** A text naming both Waipio Pet Clinic and a VCA clinic goes to the Waipio parser: earlier signatures shadow later ones. */
  lemma WaipioShadowsVca(plain: string, layout: string, pathName: string, filename: string)
    requires Contains(plain, "Waipio Pet Clinic") && Contains(plain, "VCA ")
    ensures ChooseParser(plain, layout, pathName, filename) == Choice(WaipioKind, layout, ChooseParser(plain, layout, pathName, filename).name)
  {
    SignaturesLayout();
  }

  /**
   * The abbreviation rule agrees with every entry of the CLINICS table
   * (with "Veterinary Centers of America" in `VcaAbbreviation`) except the
   * VCA Kaneohe hospital, listed as "VCA". The Aloha clinic's name is
   * spelled as the table has it, with the three characters of a garbled
   * "ff" ligature.
   */
  lemma ClinicsTableAbbreviations()
    ensures Initials(["Waipio", "Pet", "Clinic"]) == "WPC"
    ensures Initials(["Oahu", "Veterinary", "Clinic"]) == "OVC"
    ensures Initials(["Aloha", "A\U{EF}\U{AC}\U{20AC}ordable", "Vet"]) == "AAV"
    ensures Initials(["The", "Pet", "Clinic"]) == "TPC"
    ensures Initials(["Waianae", "Veterinary", "Clinic"]) == "WVC"
    ensures Initials(["Manoa", "Valley", "Vet", "Clinic"]) == "MVVC"
    ensures Initials(["Wahiawa", "Pet", "Hospital"]) == "WPH"
    ensures Initials(["Waipahu", "Waikele", "Pet", "Hospital"]) == "WWPH"
    ensures Initials(["Animal", "House", "Veterinary", "Center"]) == "AHVC"
    ensures Initials(["VCA", "Kaneohe", "Animal", "Hospital"]) == "VKAH"
  {
    ThreeWordClinics();
    FourWordClinics();
  }

  lemma ThreeWordClinics()
    ensures Initials(["Waipio", "Pet", "Clinic"]) == "WPC"
    ensures Initials(["Oahu", "Veterinary", "Clinic"]) == "OVC"
    ensures Initials(["Aloha", "A\U{EF}\U{AC}\U{20AC}ordable", "Vet"]) == "AAV"
    ensures Initials(["The", "Pet", "Clinic"]) == "TPC"
    ensures Initials(["Waianae", "Veterinary", "Clinic"]) == "WVC"
    ensures Initials(["Wahiawa", "Pet", "Hospital"]) == "WPH"
  {
    InitialsOfThree("Waipio", "Pet", "Clinic");
    InitialsOfThree("Oahu", "Veterinary", "Clinic");
    InitialsOfThree("Aloha", "A\U{EF}\U{AC}\U{20AC}ordable", "Vet");
    InitialsOfThree("The", "Pet", "Clinic");
    InitialsOfThree("Waianae", "Veterinary", "Clinic");
    InitialsOfThree("Wahiawa", "Pet", "Hospital");
  }

  lemma FourWordClinics()
    ensures Initials(["Manoa", "Valley", "Vet", "Clinic"]) == "MVVC"
    ensures Initials(["Waipahu", "Waikele", "Pet", "Hospital"]) == "WWPH"
    ensures Initials(["Animal", "House", "Veterinary", "Center"]) == "AHVC"
    ensures Initials(["VCA", "Kaneohe", "Animal", "Hospital"]) == "VKAH"
  {
    InitialsOfFour("Manoa", "Valley", "Vet", "Clinic");
    InitialsOfFour("Waipahu", "Waikele", "Pet", "Hospital");
    InitialsOfFour("Animal", "House", "Veterinary", "Center");
    InitialsOfFour("VCA", "Kaneohe", "Animal", "Hospital");
  }

  /** Three contributing words give their three first letters. */
  lemma InitialsOfThree(a: string, b: string, c: string)
    requires Initialled(a) && Initialled(b) && Initialled(c)
    ensures Initials([a, b, c]) == [a[0], b[0], c[0]]
  {
    assert [a, b, c][1..] == [b, c] && [b, c][1..] == [c] && [c][1..] == [];
    assert Initials([c]) == [c[0]];
    assert Initials([b, c]) == [b[0], c[0]];
  }

  /** Four contributing words give their four first letters. */
  lemma InitialsOfFour(a: string, b: string, c: string, d: string)
    requires Initialled(a) && Initialled(b) && Initialled(c) && Initialled(d)
    ensures Initials([a, b, c, d]) == [a[0], b[0], c[0], d[0]]
  {
    assert [a, b, c, d][1..] == [b, c, d];
    InitialsOfThree(b, c, d);
  }
}
