# FurAngelInvoiceParser, modelled in Dafny

FurAngelInvoiceParser reads veterinary invoices that partner clinics send to
an animal rescue by e-mail. It also attributes every charge to an animal of
the shelter database. This project models the core of that pipeline and
proves what the code promises about it:

- **Invoice parsing** (`invoices.dfy`, `invoice_text.dfy`, `dates.dfy`). It
  reads the header fields of a clinic invoice: patient names, invoice id and
  invoice date. It then walks the itemized sections line by line, carrying
  the charge date and the patient forward, and builds one charge record per
  charge line. It renames the file `{abrv}_{id}_{YYYY-MM-DD}.pdf`.
  - The table-driven AI parser is modelled too.
  - So is the choice of parser from the signatures in the extracted text.
- **Classification** (`procedures.dfy`, `classifier.dfy`, `parsers.dfy`).
  - The ordered PROCEDURE_MAP decides the cost category of a charge text.
    Its patterns are modelled as the sets of strings `re.search` finds
    them in, with digits, letters and word characters read over ASCII (see
    below).
  - The first matching row also fills the row's structured fields by naming
    convention.
  - Three sub-classifiers name the test, the vaccine or the medication.
- **Animal matching** (`animal_db.dfy`, `animal_getter.dfy`, `frames.dfy`).
  - Shelter stays are prepared.
  - Each charge row gets an animal by the two-stage unique-candidate rule:
    first an exact name, then a token hit, within the stays that cover the
    charge date.
  - A reconciled charge table is returned.
  - Failed rows are tied to their invoice file by the `cmp` key.
  - The older `animal_getter.py` is modelled beside the newer matcher, with
    lemmas about where the two differ.
- **Correction merge** (`web_process.dfy`).
  - The review form becomes a table of corrections.
  - The corrections are merged into the failed rows. A charge with several
    chosen animals is split into equal shares.
- **Mail handling** (`mail_utils.dfy`, `sender_name.dfy`, `mail_headers.dfy`,
  `google_services.dfy`, `google_api_functions.dfy`, `gfuncs.dfy`).
  - The listing is pruned to one message per thread.
  - The sender and the date are read off the headers.
  - Attachments are filtered and named.
  - The outcome of parsing each invoice is counted as a success, a failure or
    a non-invoice.
  - The upload and the label move are requested in the right place.
  - Three versions of the run are modelled:
    - `Processor` in `google_services.py`;
    - the older `process_invoices` in `google_api_functions.py`;
    - the first `process_msg_invoices` in `gfuncs.py`.
- **Name generator** (`name_tokens.dfy`, `name_generator.dfy`).
  - Shelter names are cut into tokens.
  - Candidate names are read from the `name gender` list.
  - The candidates no animal uses are kept, capitalized, each once.

## How the model is built

**Imperative code becomes methods.** Where the source changes state step by
step, the model does the same:
- Parser objects are classes with the source's fields (`InvoiceParser`,
  `AiParser`).
- So are the statistics objects (`Statistics`).
- `match_animals` overwrites the caller's columns in an `array`.
- The loops of `make_clinic_abbreviation`, `prune_by_threadId`,
  `get_email_dates_sender`, `get_post_data`, `update_invoice_data`,
  `load_names` and the mail runs are `while` loops.

Each such method is proved against a function of its inputs. The properties
are then proved about those functions.

**Parameters stand for code that is not modelled:**
- A regular-expression `Engine` for each clinic's own patterns.
- Python's `re` as the animal matcher uses it on names (`NameRegex`): whether a
  pattern compiles and whether it is found in a name.
- The COSTDATE conversion of `match_animals` (`DateParser`).
- A similarity score for the fuzzy matcher.
- The `DOSAGE` capture of the medication patterns.
- A date reader for the Gmail date formats.
- A `Runner` that gives the outcome of parsing one attachment.

The classifier's patterns, the three numeric invoice date formats,
`str.splitlines`, `str.strip`, `str.split` and the filename filters are
modelled concretely.

**Python's `str.lower`, `str.isupper`, `\w` and `\d` are modelled over
ASCII** (`Base.Lower`, `Base.IsUpper`, `Base.IsWordChar`, `Base.IsDigit`):
a non-ASCII letter or digit, such as "É" or "٣", is not upper case, not a
word character and not a digit here, where Python's Unicode classes count
it. `\s` and `str.isspace` are Python's full whitespace set. Amounts are exact `real`s.

**Where the descriptions of the system and the code disagree, the model
follows the code:**
- A charge line reading `SURGERY - SPAY` is classified Surgery, because the
  surgery row precedes spay/neuter (`Classifier.SurgeryShadowsSpay`).
- A line shorter than 60 characters is skipped
  (`Invoices.SkippedLinesChangeNothing`).
- The matcher is described as failing open, but the code raises when no stay
  covers the charge date. `match_animals` is modelled over its per-row
  lookup, with the lookup as written (`AnimalDb.AsWritten`) and the
  corrected one (`AnimalDb.FailOpen`). This is listed below as a finding.
- The matcher passes names to `str.contains` as regular expressions, not as
  literal text. The regex engine is a parameter (`AnimalDb.NameRegex`).

## Model

| member | source | states |
|---|---|---|
| Parsers.CostNameInjective | src/parsers.py:45-59 | distinct cost categories are written as distinct COSTTYPE strings |
| Parsers.FindBestMatch | src/parsers.py:5-13 | the first best-scoring choice when its score reaches the cutoff 51, otherwise "" (also for an empty choice list) |
| Parsers.BestIndex | src/parsers.py:9-10 | the index of the first choice with the highest score: no choice scores higher, no earlier one scores as high |
| Parsers.RemoveWords | src/parsers.py:35-36 | the filler-word deletion never lengthens the text |
| Parsers.RemoveWordsAbsent | src/parsers.py:35-36 | text containing none of the filler words passes the deletion unchanged |
| Parsers.VaccineParse | src/parsers.py:33-41 | the vaccine name is one of the listed vaccine options, or "" |
| Parsers.VaccineSpecialCases | src/parsers.py:34-40 | on a line without filler words, any of the spellings dhpp, da2pp or da2p-pv names DHPP, and otherwise kennel cough names Bordetella, before any fuzzy matching |
| Parsers.FirstRuleSpec | src/parsers.py:89-106 | a keyword table answers exactly when some rule fires, with the first rule that fires |
| Parsers.TestKeywordIsFirstRule | src/parsers.py:89-106 | `Test.parse`'s keyword checks are that first-match-wins table; later rules are never consulted |
| Parsers.TestParseInOptions | src/parsers.py:68-106 | every test name returned is one of the listed options or "" |
| Parsers.TestShadowing | src/parsers.py:94-99 | a heartworm line that also mentions "ua" is still Heartworm: earlier rules shadow later ones |
| Parsers.MedicationParse | src/parsers.py:223-228 | "kcl" names Electrolytes, otherwise "vit k1" or "vitamin" names Vitamin; any other answer is a listed option or "" |
| Parsers.MedicationOptionsFused | src/parsers.py:219-220 | the missing comma fuses two options into the single entry "ElectrolytesVitamin" |
| Parsers.MedicationSpecialNamesUnlisted | src/parsers.py:138-221 | neither name the special cases return is in the option list |
| Parsers.LacksByLetter | src/parsers.py:138-221 | a word is absent from a list all of whose entries differ from it in length or at one letter |
| Procedures.ProcedureOrder | src/constants/regex.py:23-78 | the table's patterns in the order `get_description` tries them |
| Procedures.MedOther2Unused | src/constants/regex.py:11 | `med_other2` is defined but is no key of PROCEDURE_MAP |
| Procedures.ProcedureFields | src/constants/regex.py:26-71 | every row with a field list is the test, vaccination or a medication row, with exactly its four fields |
| Procedures.MedicationRows | src/constants/regex.py:44-71 | the three medication patterns are exactly the rows of category Medication |
| Procedures.FirstMatch | src/invoices.py:77-80 | the index of the first row whose pattern matches, or -1; no earlier row matches |
| Procedures.FirstMatchIgnoresLaterRows | src/invoices.py:77-80 | two tables agreeing up to the first matching row give the same answer |
| Procedures.UppercaseNeverInLowered | src/google_services.py:410 | a word with an uppercase letter never occurs in lowercased text |
| Procedures.UppercaseAlternativesDead | src/constants/regex.py:3 | "Medical_history", "Reval" and "RESCUE" can never fire on a lowercased filename; only the other alternatives decide |
| Classifier.GetDescription | src/invoices.py:71-105 | the loop returns the record `Describe` specifies: the first matching row applied, else Other |
| Classifier.ApplyEntry | src/invoices.py:81-101 | the matching row sets category, appends the charge text and runs the field loop, as `ApplyProcedure` specifies |
| Classifier.FillFieldIsFieldValue | src/invoices.py:87-101 | one pass of the five name tests sets the field to its conventional value and touches no other key |
| Classifier.FillFieldsSets | src/invoices.py:87-101 | after the field loop every listed field with a conventional value holds it |
| Classifier.FillFieldsKeepsOtherKeys | src/invoices.py:87-101 | the field loop leaves every unlisted key unchanged |
| Classifier.FieldListsAvoidHeader | src/constants/regex.py:23-78 | no field list names COSTTYPE or COSTDESCRIPTION |
| Classifier.DescribeHeader | src/invoices.py:71-105 | COSTTYPE is the first matching row's category or "Other", and the description is the old one followed by the charge text |
| Classifier.DescribeKeepsOtherKeys | src/invoices.py:71-105 | every key outside COSTTYPE, COSTDESCRIPTION and the field lists comes through unchanged |
| Classifier.DescribeFails | src/invoices.py:103-105 | classification fails exactly when no row matches and the record has no description |
| Classifier.NoFieldRowTouchesTwoKeys | src/invoices.py:85-86 | a row without fields, and the Other path, change only COSTTYPE and COSTDESCRIPTION |
| Classifier.UnmatchedBecomesOther | src/invoices.py:103-105 | text no row matches is classified Other and kept whole in the description |
| Classifier.TestFieldValues | src/invoices.py:87-97 | TESTTYPE is the test sub-classifier's name, both TEST dates the charge date, TESTCOMMENTS the charge text |
| Classifier.VaccinationFieldValues | src/invoices.py:87-97 | VACCINATIONTYPE is the vaccine sub-classifier's name, both VACCINATION dates the charge date, the comment the charge text |
| Classifier.MedicalFieldValues | src/invoices.py:87-101 | MEDICALNAME is the medication sub-classifier's name, DOSAGE the pattern's capture, the date the charge date, the comment the charge text |
| Classifier.DescribeFillsField | src/invoices.py:87-101 | each listed field of the first matching row ends holding its conventional value |
| Classifier.TestFieldsFilled | src/invoices.py:87-101 | for the test row the four TEST* fields are set from the date, the sub-classifier and the text |
| Classifier.VaccinationFieldsFilled | src/invoices.py:87-101 | for the vaccine row the four VACCINATION* fields are set, TYPE from the vaccine sub-classifier |
| Classifier.MedicalFieldsFilled | src/invoices.py:87-101 | for a medication row NAME comes from the medication sub-classifier and DOSAGE is the capture |
| Classifier.ShampooIsSupplies | src/constants/regex.py:24 | a charge mentioning shampoo is Supplies whatever else it says |
| Classifier.SurgeryShadowsSpay | src/constants/regex.py:25-76 | a charge mentioning surgery and spay is never Spay/Neuter |
| Classifier.MedOther2OnlyTextIsOther | src/constants/regex.py:11 | a dose range spaced around the dash matches only `med_other2`, so the text is Other |
| Classifier.WordListsLetterLed | src/constants/regex.py:6-20 | every literal alternative has a lowercase letter in its first two characters |
| Classifier.PlainTextMatchesNoRow | src/constants/regex.py:23-78 | text of digits, spaces, dashes and capitals matches no row, so it is classified Other |
| Dates.MonthField | src/constants.py:32-34 | `%m` reads a month 1-12 |
| Dates.DayField | src/constants.py:32-34 | `%d` reads a day 1-31 |
| Dates.YearField | src/constants.py:32-34 | `%y` reads two digits as 1969-2068 and `%Y` four digits as 0-9999 |
| Dates.SplitFields | src/constants.py:32-34 | the text is the three fields joined by the separator, the first two free of it |
| Dates.Strptime | src/invoices.py:204-208 | a date strptime accepts is a real calendar date |
| Dates.ParseFirst | src/invoices.py:190-194 | a date the format loop returns is a real calendar date |
| Dates.ParseFirstRule | src/invoices.py:190-194 | the try/continue loop returns the date of the first accepting format, and none exactly when no format accepts |
| Dates.ShortAndLongDisjoint | src/constants.py:32-34 | `%m-%d-%y` and `%m-%d-%Y` never accept the same string |
| Dates.FieldsHaveNoDash | src/constants.py:32-34 | no accepted field contains '-' |
| Dates.SlashExcludesDash | src/constants.py:32-34 | a string `%m/%d/%Y` accepts is accepted by neither dashed format |
| Dates.FormatsExclusive | src/invoices.py:22 | the three formats accept disjoint strings, so at most one succeeds |
| Dates.ParseFirstThree | src/invoices.py:190-194 | the loop over the three formats written out, first success wins |
| Dates.ParseFirstOrderIrrelevant | src/invoices.py:22 | reordering DATE_FORMATS never changes the parsed date |
| Dates.FormatSlash | src/invoices.py:258 | the COSTDATE text is ten characters with '/' after the month and the day |
| Dates.FormatIso | src/invoices.py:260 | `date()` renders ten characters `YYYY-MM-DD`, digits around the dashes |
| Dates.MonthFieldPad | src/invoices.py:258 | a two-digit month reads back as itself |
| Dates.DayFieldPad | src/invoices.py:258 | a two-digit day reads back as itself |
| Dates.YearFieldPad | src/invoices.py:258 | a four-digit year reads back as itself under `%Y` |
| Dates.SlashRoundTrip | src/invoices.py:258 | a COSTDATE the parser writes reads back under `%m/%d/%Y` as the same date |
| InvoiceText.FirstBreak | src/invoices.py:277 | the first line break, with no break before it |
| InvoiceText.SplitLines | src/invoices.py:277 | the lines hold no break character, and only empty text has no lines |
| InvoiceText.SplitLinesJoin | src/invoices.py:277 | joining break-free lines with "\n" and splitting gives them back |
| InvoiceText.SubWrapped | src/invoices.py:158 | a bounded `re.sub` of wrapped newlines keeps the length and changes only newlines into spaces |
| InvoiceText.SubWrappedProgress | src/invoices.py:157-158 | each substitution removes a wrapped newline, so the loop ends |
| InvoiceText.JoinWrapped | src/invoices.py:156-158 | the one-pass join of wrapped lines keeps the length and leaves no wrapped newline |
| InvoiceText.SubWrappedSameJoin | src/invoices.py:157-158 | a partial substitution has the same one-pass join as the original text |
| InvoiceText.JoinWrappedFixed | src/invoices.py:157 | text with no wrapped newline is left as it is |
| InvoiceText.JoinWrappedStable | src/invoices.py:157 | no wrapped newline is left after the join |
| InvoiceText.ReduceWrapped | src/invoices.py:156-158 | the repeated substitution ends in the one-pass join |
| InvoiceText.SuffixFrom | src/invoices.py:152 | `s[k:]` has `|s| - k` characters, none past the end |
| InvoiceText.SectionStopsAtMarker | src/invoices.py:152-154 | a section runs from its begin match to just before the first end marker |
| InvoiceText.MissingMarkerDropsLastChar | src/invoices.py:153-154 | without an end marker the section loses its last character (`[:-1]`) |
| InvoiceText.PriceValue | src/invoices.py:224 | `float` of a captured price is never negative |
| InvoiceText.PriceValueRule | src/invoices.py:224 | `float` of digits, a point and digits is the whole part plus the fraction digits over 10^(their count) |
| InvoiceText.PriceValueDigits | src/invoices.py:224 | `float` of a plain digit string is its decimal value |
| InvoiceText.PriceValueShape | src/invoices.py:224 | a value is read exactly from texts of digits with at most one point and at least one digit; anything else gives none |
| InvoiceText.DigitsFractionValue | src/invoices.py:224 | the digits after the point are worth their decimal value over 10^(their count) |
| InvoiceText.DigitsValueFront | src/invoices.py:224 | read from the front, a digit string's leading digit is worth 10^(the number of digits after it) |
| InvoiceText.PriceValueExample | src/invoices.py:224 | "12.34" reads as exactly 12.34 |
| InvoiceText.PriceValueZeroExample | src/invoices.py:224 | "0.00" reads as zero and "$5" reads as no price |
| Invoices.Initials | src/invoices.py:27-33 | at most one initial per word |
| Invoices.InitialsAreFiltered | src/invoices.py:27-33 | the initials are exactly the first letters of the contributing words, in order |
| Invoices.InitialsOfThree | src/invoices.py:27-33 | three words, each capitalised and longer than two characters, give their three first letters |
| Invoices.InitialsOfFour | src/invoices.py:27-33 | four such words give their four first letters |
| Invoices.Filtered | src/invoices.py:30-31 | each contributing word is a word of the name, longer than two characters and capitalised |
| Invoices.MakeClinicAbbreviation | src/invoices.py:27-33 | the abbreviation loop returns the initials of the clinic name's words |
| Invoices.VcaAbbreviation | src/invoices.py:38 | "Veterinary Centers of America" abbreviates to "VCA" |
| Invoices.ClinicsTableAbbreviations | src/invoices.py:36-48 | the abbreviation rule gives the listed abbreviation for the ten CLINICS entries other than "Veterinary Centers of America" (stated by `VcaAbbreviation`); for the VCA Kaneohe hospital it gives "VKAH", not the listed "VCA" |
| Invoices.InvoiceId | src/invoices.py:172-177 | group 1 of the invoice pattern, and an error exactly when the pattern does not match |
| Invoices.DogNames | src/invoices.py:162-170 | all patient-name matches, and an error exactly when there is none |
| Invoices.InvoicedDate | src/invoices.py:179-198 | the invoice date is a real calendar date, and a missing pattern is an error |
| Invoices.InvoicedDateParses | src/invoices.py:179-198 | the invoice date is the matched text under the first accepting format |
| Invoices.ChargeDate | src/invoices.py:200-218 | no match gives no date, a match no format reads raises, otherwise a valid date |
| Invoices.Price | src/invoices.py:220-224 | `float` of the last price match, 0.00 when there is none |
| Invoices.Charge | src/invoices.py:226-230 | group 1 of the charge pattern, "" when it does not match |
| Invoices.ChargeDog | src/invoices.py:232-244 | without a per-line pattern the patient stays; a new patient is the pattern's capture on the line |
| Invoices.CanonicalName | src/invoices.py:273 | `{abrv}_{id}_{YYYY-MM-DD}` followed by ".pdf" |
| Invoices.DescriptionPrefix | src/invoices.py:259-261 | the prefix is bracketed and followed by one space |
| Invoices.ItemizedSections | src/invoices.py:149-160 | one section per begin match, in order, each the text from that match to its end marker |
| Invoices.BaseRecord | src/invoices.py:258-263 | the record built before classification always has a description the classifier accepts |
| Invoices.NextCursor | src/invoices.py:249-252 | a valid charge date stays valid after the line updates the cursor |
| Invoices.LineStep | src/invoices.py:278-283 | one line keeps the carried charge date a real calendar date |
| Invoices.WalkLines | src/invoices.py:277-283 | walking a section keeps the carried charge date a real calendar date |
| Invoices.WalkSections | src/invoices.py:275-283 | walking the sections keeps the carried charge date a real calendar date |
| Invoices.ReadHead | src/invoices.py:269-271 | patient names, id and invoice date read in that order, the first failure stopping |
| Invoices.WalkInvoice | src/invoices.py:272-284 | the walk over every section, started from the invoice date, keeps a valid charge date |
| Invoices.ParseInvoiceSpec | src/invoices.py:266-286 | a parsed invoice has a real invoice date and a valid walk |
| Invoices.SkippedLinesChangeNothing | src/invoices.py:278 | the first line of a section and lines under 60 characters change nothing |
| Invoices.ChargeDateCarries | src/invoices.py:249-251 | a line without a date match keeps the previous date, one with a match sets its own |
| Invoices.ChargeRecordContents | src/invoices.py:246-264 | a charge line's record carries its date, price, patient, the prefix plus charge text, and the first matching category |
| Invoices.BaseRecordFields | src/invoices.py:258-263 | before classification the record holds the prefix as description and the line's date, price and patient |
| Invoices.StampedKeysOutsideFields | src/invoices.py:258-263 | the keys set before classification are none the classifier fills |
| Invoices.ItemStepRecord | src/invoices.py:246-264 | a line with no charge text and no positive price is dropped; otherwise the record is what the classifier makes of it |
| Invoices.DescribesStampedRecord | src/invoices.py:259-264 | the classifier never rejects a parsed line's record: it always has a description |
| Invoices.WalkLinesGrows | src/invoices.py:277-283 | at most one record per line, only ever appended |
| Invoices.MissingNameFails | src/invoices.py:276 | more sections than patient names is an error |
| Invoices.ParseInvoiceHeaderErrors | src/invoices.py:269-271 | the header errors in the order `parse_invoice` meets them |
| Invoices.ParsedName | src/invoices.py:273 | a parsed invoice is named from its own id and invoice date |
| Invoices.WalkSectionsNext | src/invoices.py:275-276 | section `n` is walked from where section `n - 1` left off |
| Invoices.WalkLinesErrSticks | src/invoices.py:280 | once a line fails the rest of the section fails |
| Invoices.WalkSectionsErrSticks | src/invoices.py:275-283 | once a section fails the whole walk fails |
| Invoices.InvoiceParser.constructor | src/invoices.py:134-143 | the file name and Drive folder names come from the abbreviation |
| Invoices.InvoiceParser.GetItemizedSection | src/invoices.py:149-160 | the sections are `ItemizedSections` of the text |
| Invoices.InvoiceParser.CutSection | src/invoices.py:152-158 | one section is the text from the match up to the end marker (`Section`), with wrapped lines joined when the clinic sets a reduce pattern |
| Invoices.InvoiceParser.GetAnimalNameCharge | src/invoices.py:232-244 | the current patient becomes `ChargeDog` of the line |
| Invoices.InvoiceParser.ParseItem | src/invoices.py:246-264 | the cursor and the result are one `LineStep` |
| Invoices.InvoiceParser.ParseCharge | src/invoices.py:254-264 | price, charge text and classification as `ChargeItem` specifies |
| Invoices.InvoiceParser.ParseSection | src/invoices.py:277-283 | the inner loop appends what `WalkLines` specifies |
| Invoices.InvoiceParser.ParseNamedSection | src/invoices.py:275-276 | section `index` is walked with `names[index]` |
| Invoices.InvoiceParser.ParseSections | src/invoices.py:275-283 | the outer loop is `WalkSections` |
| Invoices.InvoiceParser.ReadInvoiceHead | src/invoices.py:269-271 | the header reads are `ReadHead`, the id stored before the date is read |
| Invoices.InvoiceParser.ParseInvoice | src/invoices.py:266-286 | the items and the new name are `ParseInvoiceSpec` of the text |
| Invoices.MaxDate | src/invoices.py:394 | `df["date"].max()` is a date of the table no other date exceeds |
| Invoices.MinId | src/invoices.py:395 | `df["invoiceNumber"].min()` is an id of the table no other id undercuts |
| Invoices.AiItems | src/invoices.py:407-422 | a collected table has one record per row |
| Invoices.AiItemsOk | src/invoices.py:407-422 | the table is collected exactly when every row is |
| Invoices.AiItemsAt | src/invoices.py:407-422 | record `i` of a collected table is the record of row `i` |
| Invoices.AiItemsErrSticks | src/invoices.py:407-422 | once a prefix fails every longer prefix fails with the same error |
| Invoices.AiItemsNaN | src/invoices.py:390-422 | a NaN description (an empty CSV field) fails the table; with a classifier that accepts every other row (as `get_description` does, `AiItemClassified`), that is the only way it fails |
| Invoices.AiItemClassified | src/invoices.py:390-422 | classified by `get_description`, a row raises exactly when its description is NaN |
| Invoices.AiTable | src/invoices.py:385-390 | the given table, or the model's answer when none is given |
| Invoices.AiItemEmpty | src/invoices.py:390-422 | a NaN description (an empty CSV field) raises TypeError whatever the price; otherwise exactly the rows with an empty description and no positive price give an empty record |
| Invoices.AiItemContents | src/invoices.py:407-422 | a row with a description that is not both empty and unpriced gets a record that carries its own clinic, number and date in the prefix, and its price and patient |
| Invoices.RowPrefix | src/invoices.py:417-419 | the prefix a row's description gets, written out |
| Invoices.AiParsedShape | src/invoices.py:383-405 | a parsed table is renamed from the latest date and the smallest id, and every row is accounted for |
| Invoices.AiEmptyAnswerFails | src/invoices.py:385-389 | an empty table and an empty answer from the model parse nothing |
| Invoices.AiParser.constructor | src/invoices.py:134-143 | the inherited constructor, run with an empty abbreviation: folders "_completed" and "_incomplete" |
| Invoices.AiParser.ParseItem | src/invoices.py:407-422 | the row sets the current patient and charge date, and the record is `AiItem` of the row |
| Invoices.AiParser.ParseInvoice | src/invoices.py:383-405 | the parse is `AiTable` then the table walk, an empty answer raising |
| Invoices.AiParser.ParseTable | src/invoices.py:392-405 | the header values and the records as `AiItems` specifies |
| Invoices.AiParser.SetTableHeader | src/invoices.py:392-395 | the clinic, id and date read off the table |
| Invoices.AiParser.ParseRows | src/invoices.py:398-402 | the `apply` collects one record per row |
| Invoices.FirstSignature | src/invoices.py:436-444 | the index of the first signature in the text, none earlier occurring, or -1 |
| Invoices.LastComponent | src/invoices.py:139 | the text after the last '/' is a suffix of the path with no '/', preceded by '/' when shorter |
| Invoices.PathName | src/invoices.py:139 | `Path(filename).name` has no '/', is never ".", and is no longer than the path |
| Invoices.PathNameRule | src/invoices.py:139 | a trailing "/" or "/." leaves the name unchanged, and a plain file name under any directory is its own name |
| Invoices.LastComponentOf | src/invoices.py:139 | the text after the last '/' of `dir/name` is `name` |
| Invoices.ChooseParser | src/invoices.py:432-454 | the parser's file name is `Path(filename).name` of a given file name, or the path's name when none is given |
| Invoices.SignaturesLayout | src/invoices.py:447 | every signature except "VCA " rereads the PDF in layout mode |
| Invoices.ChooseParserRule | src/invoices.py:432-454 | the AI parser exactly when no signature occurs, otherwise the first signature's parser |
| Invoices.WaipioShadowsVca | src/invoices.py:436-444 | a text naming both Waipio Pet Clinic and VCA goes to the Waipio parser |
| AnimalDb.PrepRows | src/animal_db_handler.py:103-109 | one prepared row per shelter row, in order: name lowercased, stay from intake to intake + days + 1 |
| AnimalDb.PrepAnimalFrame | src/animal_db_handler.py:103-108 | the prepared rows sorted by `end_date`, a permutation of them |
| AnimalDb.PrepAnimalFrameRows | src/animal_db_handler.py:103-109 | every prepared row comes from one shelter row with the stay interval |
| AnimalDb.CleanName | src/animal_db_handler.py:149 | the cleaned name has no `' ? , "` and no capital, and no whitespace at either end |
| AnimalDb.CandidatesRule | src/animal_db_handler.py:127-130 | the candidates are the stays covering the date when there are any, else the whole table |
| AnimalDb.LiteralHits | src/animal_db_handler.py:131-134 | under `re`'s reading of patterns without metacharacters, a name without them compiles in both stages and each stage selects the rows its literal reading selects |
| AnimalDb.LiteralPickAgrees | src/animal_db_handler.py:159-171 | a cleaned name without metacharacters never raises, and the two-stage rule gives its literal reading |
| AnimalDb.LikelyAnimalRule | src/animal_db_handler.py:159-171 | the lookup raises exactly when a stage it reaches does not compile; otherwise a unique exact hit wins, else a unique token hit, else the input name with ERROR_CODE |
| AnimalDb.LikelyAnimalFromTable | src/animal_db_handler.py:159-171 | an answer is a row of the table or the input name with the error code |
| AnimalDb.PickFromRows | src/animal_db_handler.py:159-171 | the two-stage rule answers with one of the rows it is given or with the error code |
| AnimalDb.LikelyAnimalAsWrittenRaises | src/animal_db_handler.py:153-171 | as written the call raises exactly when there is no date, no stay covers it, or a stage it reaches does not compile; when a stay covers the date it is the fail-open rule |
| AnimalDb.LikelyAnimalOutsideStay | src/animal_db_handler.py:153-159 | a charge dated after the only stay raises as written, while the fail-open rule finds the dog |
| AnimalDb.ProbableMatchesRule | src/animal_db_handler.py:121-137 | the suggestions raise exactly when a stage reached does not compile; otherwise they are table rows: the unique exact hit, else token hits from the window, else from the whole table |
| AnimalDb.ProbableMatchesLiteral | src/animal_db_handler.py:121-137 | a name without metacharacters never raises, and the suggestions are those of the literal reading |
| AnimalDb.LookupsNameFromTable | src/animal_db_handler.py:183-185 | both the as-written and the fail-open lookup answer with a table row or the error code |
| AnimalDb.RelabelledRule | src/animal_db_handler.py:183-185 | the `apply` raises exactly when the lookup raises on some row; otherwise row `i` is row `i` relabelled |
| AnimalDb.RelabelledErrSticks | src/animal_db_handler.py:183-185 | once a prefix of the rows raises, the whole `apply` raises with the same error |
| AnimalDb.MatchAnimalsRaises | src/animal_db_handler.py:181-185 | as written `match_animals` raises exactly when the frame is empty, some COSTDATE does not parse, or some charge day has no covering stay, or a name does not compile in a stage its lookup reaches |
| AnimalDb.MatchAnimalsFailOpenRaises | src/animal_db_handler.py:181-185 | with the fail-open lookup only an empty frame, a bad COSTDATE or a name that does not compile raises; with names free of metacharacters, only the first two |
| AnimalDb.MatchAnimalsResult | src/animal_db_handler.py:174-191 | when nothing raises, the reconciled rows are the relabelled rows that are not Other/0, each once, in date order |
| AnimalDb.RelabelNamesAnimal | src/animal_db_handler.py:183-185 | a relabelled row names an animal of the table or carries the error code, and keeps its other columns |
| AnimalDb.MatchAnimals | src/animal_db_handler.py:174-191 | the result is `MatchAnimalsSpec` of the lookup; a frame without a COSTDATE column (KeyError) or a COSTDATE that does not parse leaves the caller's rows as they were; otherwise each of them gains the `date` column, and ANIMALNAME/ANIMALCODE are overwritten as well only when no lookup raised |
| AnimalDb.Dated | src/animal_db_handler.py:182 | the row gains a `date` column holding its COSTDATE as a day, and keeps every other column |
| AnimalDb.WithDates | src/animal_db_handler.py:182 | every row of the frame gains its `date` column, in order |
| AnimalDb.ApplyLookup | src/animal_db_handler.py:183-185 | the row-by-row `apply` is `Relabelled`: it stops at the first lookup that raises |
| AnimalDb.ParsedRowMatchable | src/invoices.py:258 | a row built by the invoice parser is matchable, dated by its charge date, and names its patient |
| AnimalDb.MatchKey | src/animal_db_handler.py:194-202 | a match gives a non-empty digit id and an ISO date text |
| AnimalDb.ExtractKey | src/animal_db_handler.py:194-202 | the extracted groups are a non-empty digit id and an ISO date text |
| AnimalDb.ExtractKeyNone | src/animal_db_handler.py:194-202 | there is no key exactly when the pattern matches nowhere |
| AnimalDb.ExtractKeyFrom | src/animal_db_handler.py:194-202 | a match with none before it is the one extracted |
| AnimalDb.WithInvoiceCols | src/animal_db_handler.py:194-202 | the row gains `invoice`, `invoice_date` and `cmp` from its text, other keys unchanged |
| AnimalDb.AddInvoicesCol | src/animal_db_handler.py:194-202 | the key comes from ` - id - date` in failed rows and `_id_date` in file names |
| AnimalDb.CmpKeysAgree | src/web_process.py:7-14 | a failed row's description and its invoice's file name give the same key |
| AnimalDb.DescriptionKeyFound | src/animal_db_handler.py:194-202 | the description prefix yields the key `id_YYYY-MM-DD` |
| AnimalDb.NoKeyInClinic | src/animal_db_handler.py:194-202 | a clinic name without '-' holds no separator of its own |
| AnimalDb.NameKeyFound | src/animal_db_handler.py:194-202 | the canonical file name yields the key `id_YYYY-MM-DD` |
| AnimalDb.KeyAtInvoice | src/animal_db_handler.py:194-202 | the pattern matches right after the head of `head + sep + id + sep + iso + tail` |
| AnimalGetter.PrepAnimalFrame | src/animal_getter.py:68-75 | the prepared rows in the export's order, because the sorted frame is discarded |
| AnimalGetter.PrepSameRows | src/animal_getter.py:68-75 | both versions prepare the same rows; only the newer orders them |
| AnimalGetter.PrepKeepsOrder | src/animal_getter.py:74 | a stay that ends earlier listed second stays second |
| AnimalGetter.LegacyKeepsQuestionMarks | src/animal_getter.py:77 | the older cleaning keeps every `?`, so such a name is read as a pattern with a metacharacter, and removing them gives the newer cleaning |
| AnimalGetter.MatchAnimalsResult | src/animal_getter.py:121-129 | both versions raise on the same rows; otherwise the relabelled non-Other rows with their duplicates, in date order, and dropping duplicates gives the newer result |
| AnimalGetter.MatchAnimals | src/animal_getter.py:121-129 | the result is `MatchAnimalsSpec` of the lookup; a frame without a COSTDATE column (KeyError) or a COSTDATE that does not parse leaves the caller's rows as they were; otherwise they gain the `date` column once the dates parse, and their name and code columns are overwritten only when no lookup raised |
| WebProcess.LookupRule | src/web_process.py:40-52 | the lookups find the first animal with that name or code, and fail exactly when there is none |
| WebProcess.GetPostData | src/web_process.py:34-63 | the loop's result is `PostData` of the form |
| WebProcess.CollectRule | src/web_process.py:36-58 | the collected rows are the accepted entries, failing exactly when a lookup fails |
| WebProcess.PostDataRows | src/web_process.py:37-62 | each correction pairs a name and a code of one animal; `indices` is the first digit run of its index |
| WebProcess.PostDataFails | src/web_process.py:34-63 | the form is rejected exactly when a lookup fails, no field is a correction, or a `new_animal_*` field has no digits |
| WebProcess.Labels | src/web_process.py:72 | the index labels in row order |
| WebProcess.Shares | src/web_process.py:93-98 | one copy per row of the charge, for one chosen animal; the split reaches it only once the frame has a COSTAMOUNT column and every amount of the charge is a number or missing, as `SplitAmountRaises` states |
| WebProcess.UpdateInvoiceData | src/web_process.py:66-106 | the merge works on a copy and returns what `UpdateAsWritten` specifies |
| WebProcess.MergeRow | src/web_process.py:73-105 | one label's pass is one `StepAsWritten` |
| WebProcess.SplitRows | src/web_process.py:91-104 | the inner loop appends the blocks of shares labelled from the frame's length |
| WebProcess.TotalPartition | src/web_process.py:77-80 | a frame's total is the kept rows' total plus the rest's |
| WebProcess.ShareAmount | src/web_process.py:98 | renaming keeps a row's amount; a share carries its k-th part |
| WebProcess.TotalShares | src/web_process.py:93-98 | the copies for one animal carry the k-th part of the charge's total |
| WebProcess.TimesShare | src/web_process.py:91-98 | `k` shares of the k-th part add up to the whole |
| WebProcess.TotalSplitAll | src/web_process.py:92-104 | each block of copies carries the k-th part of the charge's total |
| WebProcess.AppendSharesSplitAll | src/web_process.py:92-104 | the inner loop appends exactly the blocks of `SplitAll` |
| WebProcess.Fresh | src/web_process.py:94-95 | one more than the largest label: a label no row has |
| WebProcess.TotalRenameCharge | src/web_process.py:85-89 | renaming a charge's rows keeps the total amount |
| WebProcess.TotalStepFixed | src/web_process.py:72-105 | each pass of the intended merge keeps the total amount |
| WebProcess.TotalSplitCharge | src/web_process.py:90-105 | replacing a charge by its shares keeps the total |
| WebProcess.TotalUpdateFixed | src/web_process.py:66-106 | the intended merge keeps the total COSTAMOUNT of the failed rows |
| WebProcess.ChargeLabelsDistinct | src/web_process.py:77-80 | a label is among the charge's labels exactly when its row belongs to the charge |
| WebProcess.ChargeLabelsRange | src/web_process.py:77-80 | on a frame labelled by position the charge's labels are its rows' positions |
| WebProcess.FreshRange | src/web_process.py:94-95 | on a frame labelled by position the next label is the length |
| WebProcess.HitRange | src/web_process.py:75 | on a frame labelled by position `iloc` and the label agree |
| WebProcess.OneAnimalStep | src/web_process.py:85-89 | one animal: every row of the charge gets it, others unchanged, no label changes |
| WebProcess.SingleRowSplitRaises | src/web_process.py:98-101 | several animals for a one-row charge always raise as written, at `to_frame` when the amount divides |
| WebProcess.ChargeLabelsNonEmpty | src/web_process.py:77-83 | the charge has labels exactly when some row has its ANIMALNAME and invoice |
| WebProcess.ChargeRowsDivisible | src/web_process.py:93-98 | the charge's rows all divide exactly when each has a numeric or missing COSTAMOUNT |
| WebProcess.SplitAmountRaises | src/web_process.py:93-98 | a split as written raises KeyError exactly when no row has a COSTAMOUNT, and otherwise TypeError exactly when a row of the charge has a COSTAMOUNT that is not a number |
| WebProcess.SplitAllNone | src/web_process.py:92-104 | copying no rows gives no copies |
| WebProcess.SplitStepRange | src/web_process.py:90-105 | on a positional frame a split as written is the intended replacement by shares |
| WebProcess.FirstStepAgrees | src/web_process.py:72-105 | on a positional frame one pass as written is the intended pass, except the one-row split and an amount that does not divide |
| WebProcess.SampleCharge | src/web_process.py:77-80 | in the sample, charge A is the first two rows and C the rest |
| WebProcess.SampleShares | src/web_process.py:92-104 | the sample's copies for X and Y, labelled from 3 |
| WebProcess.SampleFirstStep | src/web_process.py:90-105 | the first pass splits charge A in both versions |
| WebProcess.SampleLastStep | src/web_process.py:75 | after the split, label 2 is the position of a copy, not of the C row |
| WebProcess.SplitShiftsPositions | src/web_process.py:75 | as written, after the split the copies are renamed and the C row keeps its animal |
| WebProcess.SplitFixedRenamesLabel | src/web_process.py:75 | as intended, the C row is renamed and the copies keep their animals |
| WebProcess.SampleUpdateFixed | src/web_process.py:68-104 | as intended, the sample's passes are the split of A and then the renaming of the C charge |
| MailUtils.Logged | src/utils.py:18-33 | a value passes through, an exception becomes the default unless it is reraised |
| MailUtils.FirstIndex | src/utils.py:41-44 | the position of a thread's first message: no earlier message has that thread |
| MailUtils.FirstOfThreadsRule | src/utils.py:37-44 | one entry per thread, its first message, in first-appearance order, never longer than the input |
| MailUtils.PruneByThreadId | src/utils.py:37-44 | an empty listing fails the assertion (AssertionError); any other listing is pruned to `FirstOfThreads` |
| MailUtils.FirstIdsByThread | src/utils.py:41-44 | the grouping loop and the comprehension give each thread's first message, threads in order of first appearance (`FirstOfThreads`) |
| SenderName.AfterLast | src/utils.py:62 | `split(c)[-1]` is a suffix without `c`, preceded by `c` when shorter |
| SenderName.ReplaceAtChars | src/utils.py:63 | replacing '@' by "_at_" leaves no '@' and adds no other character |
| SenderName.StripWithin | src/utils.py:62 | stripping only removes characters |
| SenderName.SenderEmailClean | src/utils.py:62 | the address keeps no '<' and no '>' |
| SenderName.SenderOfClean | src/utils.py:61-63 | a normalised sender has no '<', '>' or '@' |
| SenderName.AfterLastAddress | src/utils.py:62 | splitting off the display name keeps the bracketed address |
| SenderName.ReplaceAtPrefix | src/utils.py:63 | text without '@' passes the replacement untouched |
| SenderName.SenderOfAddress | src/utils.py:61-63 | `Name <user@host>` gives `user_at_host` |
| SenderName.SenderEmailAddress | src/utils.py:62 | `sender_email` of `Name <addr>` is `addr` |
| SenderName.UnbracketAddress | src/utils.py:62 | the bracketed part without '>' is the address |
| SenderName.StripNoSpace | src/utils.py:62 | text with no space at either end is its own strip |
| SenderName.ReplaceAtAddress | src/utils.py:63 | `user@host` becomes `user_at_host` |
| MailHeaders.AnyParseRule | src/utils.py:53-58 | some format parses exactly when one does at some position |
| MailHeaders.LastParseNone | src/utils.py:53-58 | when no format parses, the date is left as it was |
| MailHeaders.LastParseLast | src/utils.py:53-58 | otherwise the last format that parses gives the date |
| MailHeaders.LastParseStart | src/utils.py:53-58 | once a format parses, the starting date no longer matters |
| MailHeaders.LastFromNone | src/utils.py:61-63 | with no From header the sender stays "unknown_sender" |
| MailHeaders.LastFromLast | src/utils.py:61-63 | otherwise the last From header gives the From value |
| MailHeaders.SenderFromLast | src/utils.py:61-63 | the sender is the normalised last From value, or "unknown_sender" |
| MailHeaders.DateFromNone | src/utils.py:48-58 | no Date header parses: the date stays "1999-01-01" |
| MailHeaders.DateFromLast | src/utils.py:51-58 | otherwise the last parsing Date header gives the date under its last parsing format |
| MailHeaders.GetEmailDatesSender | src/utils.py:47-64 | the loop returns the sender and the date `DatesSender` specifies |
| MailHeaders.HeaderStep | src/utils.py:51-63 | what one more header does to the sender and the date |
| MailHeaders.ReadDate | src/utils.py:53-58 | every format is tried and each that parses overwrites the date |
| GoogleServices.AttachmentsRule | src/google_services.py:399-403 | a part is kept exactly when it has a non-empty filename and an attachment id |
| GoogleServices.AttachmentFilenameRule | src/google_services.py:406-408 | the stored name is `{date}_{sender}_{name}` and ends in ".pdf", added exactly when missing |
| GoogleServices.SplitRule | src/google_services.py:470-474 | successes and failures split the rows, and the invoice is complete exactly when every row matched |
| GoogleServices.Statistics.constructor | src/google_services.py:273-280 | the count is the messages' and every list is empty |
| GoogleServices.Statistics.AddNonInvoice | src/google_services.py:411 | the name is appended to the non-invoices, nothing else changes |
| GoogleServices.RecordedRule | src/google_services.py:472-483 | a parsed invoice counts once, as a success exactly when all rows match; a non-empty one adds its rows |
| GoogleServices.ProcessInvoicedAttachment | src/google_services.py:458-484 | an exception changes nothing; otherwise the invoice is recorded under its own name and its folder returned |
| GoogleServices.Outbox.constructor | src/google_services.py:352 | nothing is requested yet |
| GoogleServices.HandleRule | src/google_services.py:405-442 | one attachment is listed as a non-invoice, or else uploaded once; "Total PDFs" grows exactly when it parsed, and only then may a move of this message be queued |
| GoogleServices.ExtendsTrans | src/google_services.py:405-442 | extending twice is extending |
| GoogleServices.HandleAllCounts | src/google_services.py:405-442 | a non-invoice is recorded and not uploaded, every other attachment uploaded once, "Total PDFs" grows by the parsed invoices |
| GoogleServices.ProcessMessage | src/google_services.py:389-442 | the message's attachments handled in order as `HandleMessage` specifies, a fetch failure changing nothing |
| GoogleServices.ProcessAttachment | src/google_services.py:406-442 | one attachment handled as `Handle` specifies |
| GoogleServices.ProcessInvoices | src/google_services.py:340-386 | a fresh `Statistics` counting the messages, each message handled in order |
| GoogleApi.StoredName | src/google_api_functions.py:511-512 | the stored name always ends in ".pdf", which is always appended |
| GoogleApi.StoredNameRule | src/google_api_functions.py:511-512 | it differs from `Processor`'s name exactly when the name already ends in ".pdf" |
| GoogleApi.Statistics.constructor | src/google_api_functions.py:639-644 | the count is the messages' and every list is empty |
| GoogleApi.HandleRule | src/google_api_functions.py:510-569 | one attachment is either listed as a non-invoice or counted once in "Total PDFs"; it is uploaded exactly when it is not a non-invoice and not debugging, and at most one move of this message is queued for it |
| GoogleApi.GrowsTrans | src/google_api_functions.py:510-569 | growing twice is growing |
| GoogleApi.HandleAllCounts | src/google_api_functions.py:510-569 | every attachment counted once, as a non-invoice or in "Total PDFs"; outside debugging each other attachment uploaded once; non-invoices never queue a move of the message |
| GoogleApi.HandleMessagesGrow | src/google_api_functions.py:492-569 | the messages that could be fetched are counted attachment by attachment, and the lists only grow |
| GoogleApi.ProcessAttachment | src/google_api_functions.py:510-569 | one attachment handled as `Handle` specifies |
| GoogleApi.ProcessMessage | src/google_api_functions.py:492-569 | the headers, then every attachment in order |
| GoogleApi.ProcessInvoices | src/google_api_functions.py:474-603 | a fresh `Statistics`, every message in order, and label moves sent unless debugging |
| GFuncs.DateAfterRaises | src/gfuncs.py:188-191 | the header loop raises exactly when some Date header cannot be read |
| GFuncs.DateAfterAgrees | src/gfuncs.py:188-191 | when every Date header reads, the date is the later version's under `GMAIL_DATE` |
| GFuncs.OldDatesSenderAgrees | src/gfuncs.py:187-197 | with the caller's defaults the old reading agrees with the later one when it does not raise |
| GFuncs.OldDatesSenderDefaults | src/gfuncs.py:187-197 | without From or Date headers the caller's defaults come back |
| GFuncs.GetEmailDatesSender | src/gfuncs.py:187-197 | the loop returns what `OldDatesSender` specifies, raising on an unreadable date |
| GFuncs.DateAfterRaisesLater | src/gfuncs.py:188-191 | once a prefix raises the whole raises the same |
| GFuncs.Statistics.constructor | src/gfuncs.py:378-383 | every count and list starts empty |
| GFuncs.OldStoredName | src/gfuncs.py:244-245 | `{date}_{sender}_{name}` ends in the normalised name, no extension added |
| GFuncs.DriveDirRaises | src/gfuncs.py:254-255 | as written no invoice is a success and all go unprocessed; with the folder restored a complete invoice is a success |
| GFuncs.FiledRule | src/gfuncs.py:256-283 | a parsed invoice is a success exactly when all rows match, its rows are split, every outcome counts once |
| GFuncs.ContinuesTrans | src/gfuncs.py:224-283 | continuing twice is continuing |
| GFuncs.HandlePartRule | src/gfuncs.py:224-283 | what one part does to the counts |
| GFuncs.HandlePartsCounts | src/gfuncs.py:224-283 | a non-invoice listed, every other attachment counted and uploaded once, non-attachments ignored |
| GFuncs.HandleMessagesRaises | src/gfuncs.py:210-221 | a run raises exactly when a message has an unreadable Date header |
| GFuncs.HandleMessagesContinue | src/gfuncs.py:210-283 | a run, raised or not, only adds to the lists |
| GFuncs.ProcessPart | src/gfuncs.py:224-283 | one part handled as `HandlePart` specifies |
| GFuncs.ProcessParts | src/gfuncs.py:224-283 | the parts of one message in order |
| GFuncs.ProcessMsgInvoices | src/gfuncs.py:200-283 | the statistics count the messages, and the run is `HandleMessages`, stopping at a header that raises |
| GFuncs.RaisedStays | src/gfuncs.py:210-221 | once a prefix raises the run ends where it stopped |
| NameTokens.QuoteStepsIdle | src/features/name_generator.py:55-56 | the quote and comma replacements find nothing left after the punctuation step |
| NameTokens.CleanedChars | src/features/name_generator.py:53-58 | a word character survives lowercased, anything else becomes whitespace |
| NameTokens.SplitWsConcat | src/features/name_generator.py:59 | the words of `split()` are the non-whitespace characters, in order |
| NameTokens.TokensRule | src/features/name_generator.py:49-59 | the tokens are the maximal runs of word characters of the lowercased value (`WordRuns`), so non-empty, lowercase, and together exactly its word characters in order |
| NameTokens.SplitWsAsRuns | src/features/name_generator.py:59 | splitting a text that is whitespace exactly where another has no word character gives that other text's word-character runs |
| NameTokens.TakeWordAsRun | src/features/name_generator.py:59 | the leading word of such a text is the other's leading word-character run |
| NameGenerator.ExplodeRow | src/features/name_generator.py:43 | one row per token, or one NaN row when there is none |
| NameGenerator.ExplodeNames | src/features/name_generator.py:42-43 | the exploded names are the rows' tokens, in order |
| NameGenerator.ExplodeLength | src/features/name_generator.py:43 | one row per token plus one NaN row per tokenless row |
| NameGenerator.ExplodeNonEmpty | src/features/name_generator.py:44 | no exploded name is empty when no token is |
| NameGenerator.ExtractExtraNamesRule | src/features/name_generator.py:42-46 | the `!= ''` filter keeps every exploded row, whose names are the tokens in order |
| NameGenerator.UpperChar | src/features/name_generator.py:69 | a lowercase letter becomes its capital, anything else stays |
| NameGenerator.Capitalize | src/features/name_generator.py:69 | the first character upper-cased and every other character lower-cased, so the same length and lowercase form |
| NameGenerator.LowerAll | src/features/name_generator.py:67 | each candidate lowercased |
| NameGenerator.CapitalizeAll | src/features/name_generator.py:69 | each name capitalized |
| NameGenerator.DisjointFromRule | src/features/name_generator.py:67-69 | a name is kept exactly when it capitalizes a lowercased unknown candidate, each once |
| NameGenerator.DisjointFromSound | src/features/name_generator.py:68-69 | a kept name comes from a candidate that is not known |
| NameGenerator.GetDisjointRule | src/features/name_generator.py:63-70 | a candidate is kept exactly when no animal's name has its lowercase form as a token, each once, capitalized |
| NameFile.LoadedNamesRule | src/features/name_generator.py:12-26 | loading raises exactly when the first line has neither one nor two words; each line gives its pair or repeats the last |
| NameFile.LoadNames | src/features/name_generator.py:12-26 | the loop returns `LoadedNames` of the lines |
| NameFile.LoadedNamesStays | src/features/name_generator.py:15-24 | once a prefix raises the whole raises the same |

## Left out

- Reading PDF text (`pypdf`, layout mode). The extracted text comes in as a value.
- The Gemini call of the AI parser. The model's answer is a parameter.
- The clinics' own regular expressions. They run on an `Engine` parameter; only the classifier patterns and the filename filters are modelled exactly.
- Fuzzy string scoring (`fuzzywuzzy`). The score is a parameter; the cutoff and the first-best rule are modelled.
- The `DOSAGE` capture of the medication patterns. It is a parameter, because which overlapping match the backtracking engine picks is not modelled.
- Gmail date parsing (`%a, %d %b %Y %H:%M:%S %z`). It is a `DateReader` parameter.
- The network and Drive/Gmail/database I/O. Fetches, uploads, label moves, CSV reports, summaries and the shelter export are left out; uploads and label moves are recorded as requests in an `Outbox`.
- Logging and the HTML summary text. Only the counts behind them are modelled.
- The Flask routes, OAuth and credentials. They are not part of this model.
- `Frames.SortBy`: the order of rows with equal keys is left unspecified, because pandas' default sort is not stable.
- `AnimalDb.PrepAnimalFrame`: sorted by `end_date` and a permutation of the prepared rows, not a particular order among equal end dates.
- `InvoiceText.PriceValue`: amounts are exact reals, not binary floats; rounding in `float` and in `COSTAMOUNT /= row_amount` is not modelled. The texts `float` also accepts that no price pattern captures (signs, exponents, surrounding spaces, "inf", "nan") are read as none.
- `WebProcess.TotalUpdateFixed`: the total is kept exactly over reals; with floats it holds only up to rounding.
- `Dates.Strptime`: only the three numeric invoice formats are modelled, not strptime's general directives.
- `Base.Lower`: lowercasing is ASCII only, with no Unicode case mapping.
- `MailUtils.Logged`: logging the exception is not modelled.
- `AnimalDb.NameRegex`: Python's `re` is a parameter of the matcher, not modelled. The model proves only that names free of metacharacters (`ReadsLiterally`) match literally. Other names are read as patterns: "B.B." also matches "bobby", the older matcher's "Rex?" matches "re", and "C++" raises `re.error`.
- `AnimalDb.LikelyAnimalRule`: the rule is stated over the `NameRegex` parameter, so which rows a name with metacharacters selects is not modelled; `LiteralPickAgrees` gives the literal reading for names without them.
- `AnimalDb.LikelyAnimalAsWrittenRaises`: the `re.error` cases are stated over the `NameRegex` parameter (`PickRaises`), not over Python's regex syntax.
- `AnimalDb.ProbableMatchesRule`: the rule is stated over the `NameRegex` parameter; `ProbableMatchesLiteral` gives the literal reading for names without metacharacters.
- `AnimalDb.MatchAnimalsRaises`: which names fail to compile is left to the `NameRegex` parameter.
- `AnimalDb.MatchAnimalsSpec`: a `date` column the caller's rows already carry stays in the returned rows, where the source overwrites it and then drops it; the same holds for `AnimalGetter.MatchAnimalsSpec`.
- `AnimalDb.MatchAnimals`: a row without COSTDATE or ANIMALNAME, where other rows have them (NaN, as the AI parser's empty record gives), is modelled as raising before the frame is touched. In pandas `to_datetime` turns a NaN COSTDATE into NaT without raising, the `date` column is written, and only then does the lookup raise: AttributeError on a NaN name, UnboundLocalError on a NaT date. The call raises in both, but the error text and the caller's rows afterwards differ. The same holds for `AnimalGetter.MatchAnimals`.
- `AnimalGetter.MatchAnimals`: a NaN COSTDATE or ANIMALNAME is treated as in `AnimalDb.MatchAnimals` above.
- `WebProcess.StepFixed`: the intended merge leaves a COSTAMOUNT that is not a number as it is, where the division as written raises TypeError (`SplitAmountRaises`); what a split of such a row should do is not evident.
- `Base.IsDigit`: `\d` is read over ASCII; Python's Unicode digits of other scripts are not modelled. The same holds for `Base.IsUpper` (`str.isupper`) and `Base.IsWordChar` (`\w`).
- `Invoices.AiRow`: only the description may be NaN; NaN in the other columns of the model's CSV answer is not modelled.
- `GFuncs.ProcessPart`: runs the corrected filing `Filed`. As written (src/gfuncs.py:254-255), every parsed invoice raises on `parser.drive_dir` and is counted as a failure; that is `FiledAsWritten` (see Findings).
- `GFuncs.ProcessParts`: runs the corrected filing `Filed`, not the as-written `FiledAsWritten` (see Findings).
- `GFuncs.ProcessMsgInvoices`: runs the corrected filing `Filed`, not the as-written `FiledAsWritten` (see Findings).

## Findings

| source | as written | input that shows it | evidently intended | confidence | as-written member | corrected member |
|---|---|---|---|---|---|---|
| src/animal_db_handler.py:153-159 | `filtered_df` is bound only when a date is given and some stay covers it; otherwise `get_likely_animal` raises UnboundLocalError (the same holds for src/animal_getter.py:101-107) | a charge dated after the only stay of "Rex" | fall back to the whole table when no stay covers the date | not executed | AnimalDb.LikelyAnimalAsWrittenRaises | AnimalDb.LikelyAnimalRule |
| src/web_process.py:99-101 | a charge of one row split between several animals calls `to_frame` on a one-row DataFrame, which raises AttributeError | a group of two corrections for a charge of one row | append the one-row copy like any other block of shares | not executed | WebProcess.SingleRowSplitRaises | WebProcess.TotalStepFixed |
| src/web_process.py:75 | `invoice.iloc[invoice_idx]` reads a label as a position; after a split appends copies and drops the originals, positions no longer match labels | the sample frame: split charge A, then correct the C row labelled 2 | read the charge from the input frame by its row label, and split or rename its rows in the frame being rebuilt, whatever their positions there | not executed | WebProcess.SplitShiftsPositions | WebProcess.TotalUpdateFixed |
| src/gfuncs.py:254-255 | `parser.drive_dir` is no attribute of any parser, so every parsed invoice raises, is counted as a failure and goes to the unprocessed folder | any attachment that parses | file under the parser's completed or incomplete folder | not executed | GFuncs.DriveDirRaises | GFuncs.FiledRule |
