// The correction merge of src/web_process.py: the form posted by the review
// page becomes a table of corrections (`get_post_data`), and the
// corrections are merged into the failed charge rows
// (`update_invoice_data`). Frames are sequences of labelled rows; the
// label is the pandas index label, which `iloc` mistakes for a position.

module WebProcess {
  import opened Base
  import opened Classifier
  import opened Frames
  import opened AnimalDb

  // ---------------------------------------------------------------
  // get_post_data
  // ---------------------------------------------------------------

  /** One posted choice: the row reference, and the animal chosen for it. */
  datatype Posted = Posted(index: string, name: string, code: string)

  /** A row of the corrections table: `indices` is the charge row it is for. */
  datatype Correction = Correction(index: string, name: string, code: string, indices: nat)

  const NewAnimalPrefix := "new_animal_"

  /** `.values[0]` on an empty selection. */
  const LookupError := "IndexError: index 0 is out of bounds for axis 0 with size 0"

  /** `DataFrame([])` has no `index` column. */
  const EmptyFormError := "KeyError: 'index'"

  /** `astype('int')` on the NaN that `extract` gives for an index without digits. */
  const CastError := "IntCastingNaNError: Cannot convert non-finite values (NA or inf) to integer"

  /** SHELTERCODE of the first animal with this ANIMALNAME. */
  function CodeOf(name: string, animals: seq<Animal>): Option<string> {
    var w := Where(animals, (a: Animal) => a.animalName == name);
    if w == [] then None else Some(w[0].shelterCode)
  }

  /** ANIMALNAME of the first animal with this SHELTERCODE. */
  function NameOf(code: string, animals: seq<Animal>): Option<string> {
    var w := Where(animals, (a: Animal) => a.shelterCode == code);
    if w == [] then None else Some(w[0].animalName)
  }

  /**
   * The lookups find the first animal of the table with that name (code),
   * and fail exactly when the table has none.
   */
  lemma LookupRule(key: string, animals: seq<Animal>)
    ensures CodeOf(key, animals).None? <==> forall a :: a in animals ==> a.animalName != key
    ensures CodeOf(key, animals).Some? ==>
              exists i :: 0 <= i < |animals| && animals[i].animalName == key &&
                          CodeOf(key, animals).value == animals[i].shelterCode &&
                          forall j :: 0 <= j < i ==> animals[j].animalName != key
    ensures NameOf(key, animals).None? <==> forall a :: a in animals ==> a.shelterCode != key
    ensures NameOf(key, animals).Some? ==>
              exists i :: 0 <= i < |animals| && animals[i].shelterCode == key &&
                          NameOf(key, animals).value == animals[i].animalName &&
                          forall j :: 0 <= j < i ==> animals[j].shelterCode != key
  {
    var byName := (a: Animal) => a.animalName == key;
    var byCode := (a: Animal) => a.shelterCode == key;
    WhereMembers(animals, byName);
    WhereMembers(animals, byCode);
    if Where(animals, byName) != [] {
      WhereFirst(animals, byName);
    } else {
      forall a | a in animals ensures a.animalName != key {
        assert a !in Where(animals, byName);
      }
    }
    if Where(animals, byCode) != [] {
      WhereFirst(animals, byCode);
    } else {
      forall a | a in animals ensures a.shelterCode != key {
        assert a !in Where(animals, byCode);
      }
    }
  }

  /** `re.search(r"^\b\d+\b", key)`: the key starts with a digit run that ends at a word boundary. */
  predicate DigitKey(key: string) {
    var ds := TakeDigits(key);
    ds != [] && (|ds| == |key| || !IsWordChar(key[|ds|]))
  }

  /**
   * One form field: a `new_animal_*` field names the animal, a numeric field
   * gives its code, and any other field is ignored. The lookup of the
   * other half raises when the table has no such animal.
   */
  function PostEntry(key: string, value: string, animals: seq<Animal>): Result<Option<Posted>> {
    if StartsAt(key, 0, NewAnimalPrefix) then
      match CodeOf(value, animals)
      case None => Err(LookupError)
      case Some(code) => Ok(Some(Posted(Join(DigitRuns(key), "_"), value, code)))
    else if DigitKey(key) then
      match NameOf(value, animals)
      case None => Err(LookupError)
      case Some(name) => Ok(Some(Posted(key, name, value)))
    else Ok(None)
  }

  /** The loop over the form: `data` grows by each entry; the first failing lookup raises. */
  function Collect(data: seq<Posted>, form: seq<(string, string)>, animals: seq<Animal>): Result<seq<Posted>>
    decreases |form|
  {
    if form == [] then Ok(data)
    else
      match PostEntry(form[0].0, form[0].1, animals)
      case Err(e) => Err(e)
      case Ok(o) => Collect(data + (if o.Some? then [o.value] else []), form[1..], animals)
  }

  /** `df['index'].str.extract(r"(\d+)_?").astype('int')`: the first digit run. */
  function RowIndex(index: string): Option<nat> {
    var runs := DigitRuns(index);
    if runs == [] then None else Some(DigitsValue(runs[0]))
  }

  /** The frame built from the collected rows, with its `indices` column. */
  function ToCorrections(data: seq<Posted>): Result<seq<Correction>> {
    if data == [] then Err(EmptyFormError)
    else if exists k :: 0 <= k < |data| && RowIndex(data[k].index).None? then Err(CastError)
    else Ok(seq(|data|, k requires 0 <= k < |data| => Correction(data[k].index, data[k].name, data[k].code, RowIndex(data[k].index).value)))
  }

  /** `get_post_data`. */
  function PostData(form: seq<(string, string)>, animals: seq<Animal>): Result<seq<Correction>> {
    match Collect([], form, animals)
    case Err(e) => Err(e)
    case Ok(data) => ToCorrections(data)
  }

  /** `get_post_data` as the loop over `req.form.items()`. */
  method GetPostData(form: seq<(string, string)>, animals: seq<Animal>) returns (r: Result<seq<Correction>>)
    ensures r == PostData(form, animals)
  {
    var data: seq<Posted> := [];
    var i := 0;
    while i < |form|
      invariant 0 <= i <= |form|
      invariant Collect(data, form[i..], animals) == Collect([], form, animals)
    {
      assert form[i..][0] == form[i] && form[i..][1..] == form[i + 1..];
      var entry := PostEntry(form[i].0, form[i].1, animals);
      if entry.Err? {
        return Err(entry.error);
      }
      ghost var before := data;
      if entry.value.Some? {
        data := data + [entry.value.value];
      } else {
        assert before + [] == data;
      }
      assert Collect(before, form[i..], animals) == Collect(data, form[i + 1..], animals);
      i := i + 1;
    }
    r := ToCorrections(data);
  }

  /** The collected rows are the accepted entries, and collecting fails exactly when a lookup fails. */
  lemma {:induction false} CollectRule(data: seq<Posted>, form: seq<(string, string)>, animals: seq<Animal>)
    ensures Collect(data, form, animals).Err? <==>
              exists i :: 0 <= i < |form| && PostEntry(form[i].0, form[i].1, animals).Err?
    ensures Collect(data, form, animals).Ok? ==>
              forall p :: p in Collect(data, form, animals).value <==>
                p in data || exists i :: 0 <= i < |form| && PostEntry(form[i].0, form[i].1, animals) == Ok(Some(p))
    decreases |form|
  {
    if form != [] {
      var e := PostEntry(form[0].0, form[0].1, animals);
      if e.Ok? {
        var data' := data + (if e.value.Some? then [e.value.value] else []);
        CollectRule(data', form[1..], animals);
        assert forall i :: 1 <= i < |form| ==> form[i] == form[1..][i - 1];
        assert forall i :: 0 <= i < |form| - 1 ==> form[1..][i] == form[i + 1];
      }
    }
  }

  /**
   * Every correction pairs a name and a code of one animal of the table:
   * from a `new_animal_*` field, its digit runs joined by `_`, the posted
   * name and that name's code; from a numeric field, the field name, the
   * posted code and that code's name. Its `indices` is the first digit run
   * of its index.
   */
  lemma PostDataRows(form: seq<(string, string)>, animals: seq<Animal>)
    requires PostData(form, animals).Ok?
    ensures forall c :: c in PostData(form, animals).value ==>
              RowIndex(c.index) == Some(c.indices) &&
              (exists a :: a in animals && a.animalName == c.name && a.shelterCode == c.code) &&
              exists i :: 0 <= i < |form| &&
                ((StartsAt(form[i].0, 0, NewAnimalPrefix) && c.index == Join(DigitRuns(form[i].0), "_") &&
                  c.name == form[i].1 && CodeOf(c.name, animals) == Some(c.code)) ||
                 (!StartsAt(form[i].0, 0, NewAnimalPrefix) && DigitKey(form[i].0) && c.index == form[i].0 &&
                  c.code == form[i].1 && NameOf(c.code, animals) == Some(c.name)))
  {
    CollectRule([], form, animals);
    var data := Collect([], form, animals).value;
    var cs := PostData(form, animals).value;
    forall c | c in cs
      ensures RowIndex(c.index) == Some(c.indices)
      ensures exists a :: a in animals && a.animalName == c.name && a.shelterCode == c.code
      ensures exists i :: 0 <= i < |form| &&
                ((StartsAt(form[i].0, 0, NewAnimalPrefix) && c.index == Join(DigitRuns(form[i].0), "_") &&
                  c.name == form[i].1 && CodeOf(c.name, animals) == Some(c.code)) ||
                 (!StartsAt(form[i].0, 0, NewAnimalPrefix) && DigitKey(form[i].0) && c.index == form[i].0 &&
                  c.code == form[i].1 && NameOf(c.code, animals) == Some(c.name)))
    {
      var k :| 0 <= k < |cs| && cs[k] == c;
      var p := data[k];
      assert p in data;
      var i :| 0 <= i < |form| && PostEntry(form[i].0, form[i].1, animals) == Ok(Some(p));
      LookupRule(form[i].1, animals);
    }
  }

  /**
   * The form is rejected exactly when a lookup fails, when no field is a
   * correction, or when a `new_animal_*` field carries no digits.
   */
  lemma PostDataFails(form: seq<(string, string)>, animals: seq<Animal>)
    ensures PostData(form, animals).Err? <==>
              (exists i :: 0 <= i < |form| && PostEntry(form[i].0, form[i].1, animals).Err?) ||
              (forall i :: 0 <= i < |form| ==> PostEntry(form[i].0, form[i].1, animals) == Ok(None)) ||
              (exists i, p: Posted :: 0 <= i < |form| && PostEntry(form[i].0, form[i].1, animals) == Ok(Some(p)) &&
                 RowIndex(p.index).None?)
  {
    CollectRule([], form, animals);
    var c := Collect([], form, animals);
    if c.Ok? {
      var data := c.value;
      if data != [] {
        assert data[0] in data;
      }
      if exists k :: 0 <= k < |data| && RowIndex(data[k].index).None? {
        var k :| 0 <= k < |data| && RowIndex(data[k].index).None?;
        assert data[k] in data;
      }
      forall i, p: Posted | 0 <= i < |form| && PostEntry(form[i].0, form[i].1, animals) == Ok(Some(p))
        ensures p in data
      {
      }
    }
  }

  // ---------------------------------------------------------------
  // update_invoice_data
  // ---------------------------------------------------------------

  /** A row of a frame: its index label and its record. */
  datatype Row = Row(id: nat, rec: ChargeRecord)

  /** `iloc` with a position past the end. */
  const PositionError := "IndexError: positional indexers are out-of-bounds"

  /** `to_frame` called on the one-row DataFrame `nrow`. */
  const ToFrameError := "AttributeError: 'DataFrame' object has no attribute 'to_frame'"

  /** `nrow['COSTAMOUNT']` on a frame that has no COSTAMOUNT column. */
  const AmountKeyError := "KeyError: 'COSTAMOUNT'"

  /** `/=` on a COSTAMOUNT that holds text or a timestamp instead of a number. */
  const AmountTypeError := "TypeError: unsupported operand type(s) for /: COSTAMOUNT"

  /** `invoice.index`. */
  function Labels(f: seq<Row>): (r: seq<nat>)
    ensures |r| == |f|
    ensures forall i :: 0 <= i < |f| ==> r[i] == f[i].id
  {
    seq(|f|, i requires 0 <= i < |f| => f[i].id)
  }

  predicate DistinctLabels(f: seq<Row>) {
    forall i, j :: 0 <= i < j < |f| ==> f[i].id != f[j].id
  }

  /** `cgroups.get_group(l)`: the corrections for row `l`, in table order. */
  function Group(corrected: seq<Correction>, l: nat): seq<Correction> {
    Where(corrected, InGroup(l))
  }

  function InGroup(l: nat): Correction -> bool {
    (c: Correction) => c.indices == l
  }

  /** Same ANIMALNAME and same invoice as `m`; a missing value (NaN) equals nothing. */
  predicate SameCharge(rec: ChargeRecord, m: ChargeRecord) {
    "ANIMALNAME" in rec && "ANIMALNAME" in m && rec["ANIMALNAME"] == m["ANIMALNAME"] &&
    "invoice" in rec && "invoice" in m && rec["invoice"] == m["invoice"]
  }

  function OfCharge(m: ChargeRecord): Row -> bool {
    (r: Row) => SameCharge(r.rec, m)
  }

  function NotOfCharge(m: ChargeRecord): Row -> bool {
    (r: Row) => !SameCharge(r.rec, m)
  }

  /** `indices`: the labels of the rows of the charge `m`, in frame order. */
  function ChargeLabels(f: seq<Row>, m: ChargeRecord): seq<nat> {
    Labels(Where(f, OfCharge(m)))
  }

  /** The chosen animal written into a row. */
  function Renamed(rec: ChargeRecord, c: Correction): ChargeRecord {
    rec["ANIMALNAME" := Text(c.name)]["ANIMALCODE" := Text(c.code)]
  }

  /** `invoice.loc[indices, ['ANIMALNAME', 'ANIMALCODE']] = name, code`: every row whose label is listed. */
  function RenameLabels(f: seq<Row>, idx: seq<nat>, c: Correction): seq<Row> {
    seq(|f|, i requires 0 <= i < |f| => if f[i].id in idx then Row(f[i].id, Renamed(f[i].rec, c)) else f[i])
  }

  /** Some row has a COSTAMOUNT, so the frame has that column. */
  predicate HasAmountColumn(f: seq<Row>) {
    exists i :: 0 <= i < |f| && "COSTAMOUNT" in f[i].rec
  }

  /** COSTAMOUNT is a number or missing (NaN, which stays NaN when divided). */
  predicate NumericAmount(rec: ChargeRecord) {
    "COSTAMOUNT" in rec ==> rec["COSTAMOUNT"].Amount?
  }

  /** `nrow['COSTAMOUNT'] /= row_amount` goes through on these rows. */
  predicate Divisible(rows: seq<Row>) {
    forall j :: 0 <= j < |rows| ==> NumericAmount(rows[j].rec)
  }

  /**
   * One share of a split row: the chosen animal, and COSTAMOUNT divided by
   * `k` (a missing amount stays missing).
   */
  function Share(rec: ChargeRecord, c: Correction, k: nat): ChargeRecord
    requires k > 0
  {
    if "COSTAMOUNT" in rec && rec["COSTAMOUNT"].Amount? then
      Renamed(rec, c)["COSTAMOUNT" := Amount(rec["COSTAMOUNT"].amount / k as real)]
    else Renamed(rec, c)
  }

  /** `invoice.iloc[ps]`: the rows at these positions. */
  function At(f: seq<Row>, ps: seq<nat>): seq<Row>
    requires forall j :: 0 <= j < |ps| ==> ps[j] < |f|
  {
    seq(|ps|, j requires 0 <= j < |ps| => f[ps[j]])
  }

  /** The copies of `rows` for one chosen animal, labelled `base`, `base + 1`, ... */
  function Shares(rows: seq<Row>, c: Correction, k: nat, base: nat): (r: seq<Row>)
    requires k > 0
    ensures |r| == |rows|
  {
    seq(|rows|, j requires 0 <= j < |rows| => Row(base + j, Share(rows[j].rec, c, k)))
  }

  /** The inner loop: one block of copies per chosen animal, appended with labels from the current length. */
  function AppendShares(f: seq<Row>, rows: seq<Row>, g: seq<Correction>, k: nat): seq<Row>
    requires k > 0
    decreases |g|
  {
    if g == [] then f else AppendShares(f + Shares(rows, g[0], k, |f|), rows, g[1..], k)
  }

  /** `invoice.drop(indices)`: every row whose label is listed goes. */
  function DropLabels(f: seq<Row>, idx: seq<nat>): seq<Row> {
    Where(f, (r: Row) => r.id !in idx)
  }

  /**
   * One pass of the outer loop, for the row label `l`, as written: the
   * label is used as a position to find the charge, and the charge's labels
   * as positions to copy its rows.
   */
  function StepAsWritten(f: seq<Row>, l: nat, corrected: seq<Correction>): Result<seq<Row>> {
    var g := Group(corrected, l);
    if g == [] then Ok(f)
    else if l >= |f| then Err(PositionError)
    else
      var idx := ChargeLabels(f, f[l].rec);
      if idx == [] then Ok(f)
      else if |g| == 1 then Ok(RenameLabels(f, idx, g[0]))
      else if exists j :: 0 <= j < |idx| && idx[j] >= |f| then Err(PositionError)
      else if !HasAmountColumn(f) then Err(AmountKeyError)
      else if !Divisible(At(f, idx)) then Err(AmountTypeError)
      else if |idx| == 1 then Err(ToFrameError)
      else Ok(DropLabels(AppendShares(f, At(f, idx), g, |g|), idx))
  }

  /** The outer loop over the labels the copy started with; the first error raises. */
  function StepsAsWritten(f: seq<Row>, labels: seq<nat>, corrected: seq<Correction>): Result<seq<Row>>
    decreases |labels|
  {
    if labels == [] then Ok(f)
    else
      match StepAsWritten(f, labels[0], corrected)
      case Err(e) => Err(e)
      case Ok(f') => StepsAsWritten(f', labels[1..], corrected)
  }

  /** `update_invoice_data` as written. */
  function UpdateAsWritten(inData: seq<Row>, corrected: seq<Correction>): Result<seq<Row>> {
    if corrected == [] then Ok(inData) else StepsAsWritten(inData, Labels(inData), corrected)
  }

  /**
   * `update_invoice_data`: works on a copy of the rows (a value here, so
   * the caller's frame is never changed) and merges the corrections row
   * label by row label.
   */
  method UpdateInvoiceData(inData: seq<Row>, corrected: seq<Correction>) returns (r: Result<seq<Row>>)
    ensures r == UpdateAsWritten(inData, corrected)
  {
    var invoice := inData;
    if corrected == [] {
      return Ok(invoice);
    }
    var labels := Labels(inData);
    var i := 0;
    while i < |labels|
      invariant 0 <= i <= |labels|
      invariant StepsAsWritten(invoice, labels[i..], corrected) == StepsAsWritten(inData, labels, corrected)
    {
      assert labels[i..][0] == labels[i] && labels[i..][1..] == labels[i + 1..];
      var step := MergeRow(invoice, labels[i], corrected);
      if step.Err? {
        return step;
      }
      invoice := step.value;
      i := i + 1;
    }
    r := Ok(invoice);
  }

  /** The body of the outer loop for one label. */
  method MergeRow(invoice: seq<Row>, l: nat, corrected: seq<Correction>) returns (r: Result<seq<Row>>)
    ensures r == StepAsWritten(invoice, l, corrected)
  {
    var g := Group(corrected, l);
    if g == [] {
      return Ok(invoice);
    }
    if l >= |invoice| {
      return Err(PositionError);
    }
    var idx := ChargeLabels(invoice, invoice[l].rec);
    if idx == [] {
      return Ok(invoice);
    }
    if |g| == 1 {
      return Ok(RenameLabels(invoice, idx, g[0]));
    }
    if exists j :: 0 <= j < |idx| && idx[j] >= |invoice| {
      return Err(PositionError);
    }
    if !HasAmountColumn(invoice) {
      return Err(AmountKeyError);
    }
    if !Divisible(At(invoice, idx)) {
      return Err(AmountTypeError);
    }
    if |idx| == 1 {
      return Err(ToFrameError);
    }
    var grown := SplitRows(invoice, At(invoice, idx), g, |g|);
    r := Ok(DropLabels(grown, idx));
  }

  /** The inner loop: for each chosen animal, copies of the rows appended at the end. */
  method SplitRows(invoice: seq<Row>, rows: seq<Row>, g: seq<Correction>, k: nat) returns (r: seq<Row>)
    requires k > 0
    ensures r == AppendShares(invoice, rows, g, k)
  {
    r := invoice;
    var j := 0;
    while j < |g|
      invariant 0 <= j <= |g|
      invariant AppendShares(r, rows, g[j..], k) == AppendShares(invoice, rows, g, k)
    {
      assert g[j..][0] == g[j] && g[j..][1..] == g[j + 1..];
      r := r + Shares(rows, g[j], k, |r|);
      j := j + 1;
    }
  }

  // ---------------------------------------------------------------
  // Amount totals
  // ---------------------------------------------------------------

  /** COSTAMOUNT of a row; a row without an amount counts for nothing. */
  function Amt(rec: ChargeRecord): real {
    if "COSTAMOUNT" in rec && rec["COSTAMOUNT"].Amount? then rec["COSTAMOUNT"].amount else 0.0
  }

  /** The sum of COSTAMOUNT over a frame. */
  function Total(f: seq<Row>): real {
    if f == [] then 0.0 else Total(f[..|f| - 1]) + Amt(f[|f| - 1].rec)
  }

  lemma {:induction false} TotalAppend(a: seq<Row>, b: seq<Row>)
    ensures Total(a + b) == Total(a) + Total(b)
    decreases |b|
  {
    if b == [] {
      assert a + b == a;
    } else {
      var n := |b| - 1;
      assert (a + b)[..|a + b| - 1] == a + b[..n];
      TotalAppend(a, b[..n]);
    }
  }

  /** A frame's total is the total of the rows a mask keeps plus the total of the rest. */
  lemma {:induction false} TotalPartition(f: seq<Row>, p: Row -> bool, q: Row -> bool)
    requires forall r :: q(r) == !p(r)
    ensures Total(Where(f, p)) + Total(Where(f, q)) == Total(f)
  {
    if f != [] {
      var n := |f| - 1;
      TotalPartition(f[..n], p, q);
      var last := [f[n]];
      assert last[..0] == [];
      if p(f[n]) {
        assert Where(f, p) == Where(f[..n], p) + last;
        assert Where(f, q) == Where(f[..n], q);
        TotalAppend(Where(f[..n], p), last);
      } else {
        assert Where(f, q) == Where(f[..n], q) + last;
        assert Where(f, p) == Where(f[..n], p);
        TotalAppend(Where(f[..n], q), last);
      }
    }
  }

  /** Renaming a row leaves its amount alone; a share carries the k-th part of it. */
  lemma ShareAmount(rec: ChargeRecord, c: Correction, k: nat)
    requires k > 0
    ensures Amt(Renamed(rec, c)) == Amt(rec)
    ensures Amt(Share(rec, c, k)) == Amt(rec) / k as real
  {
  }

  /** The copies for one animal carry the k-th part of the copied rows' total. */
  lemma {:induction false} TotalShares(rows: seq<Row>, c: Correction, k: nat, base: nat)
    requires k > 0
    ensures Total(Shares(rows, c, k, base)) == Total(rows) / k as real
  {
    if rows != [] {
      var n := |rows| - 1;
      var sh := Shares(rows, c, k, base);
      assert sh[..n] == Shares(rows[..n], c, k, base);
      TotalShares(rows[..n], c, k, base);
      ShareAmount(rows[n].rec, c, k);
      DivAdd(Total(rows[..n]), Amt(rows[n].rec), k as real);
    }
  }

  lemma DivAdd(x: real, y: real, k: real)
    requires k > 0.0
    ensures x / k + y / k == (x + y) / k
  {
  }

  /** `n` copies of the amount `t` added up. */
  function Times(n: nat, t: real): real {
    if n == 0 then 0.0 else Times(n - 1, t) + t
  }

  /** `k` shares of the k-th part of `t` add up to `t`. */
  lemma {:induction false} TimesShare(k: nat, t: real)
    requires k > 0
    ensures Times(k, t / k as real) == t
  {
    TimesMul(k, t / k as real);
  }

  lemma {:induction false} TimesMul(n: nat, t: real)
    ensures Times(n, t) == n as real * t
  {
    if n > 0 {
      TimesMul(n - 1, t);
    }
  }

  /** One block of copies per chosen animal, labelled consecutively from `base`. */
  function SplitAll(rows: seq<Row>, g: seq<Correction>, k: nat, base: nat): seq<Row>
    requires k > 0
    decreases |g|
  {
    if g == [] then [] else Shares(rows, g[0], k, base) + SplitAll(rows, g[1..], k, base + |rows|)
  }

  /** Each block of copies carries `share`, the k-th part of the copied rows' total. */
  lemma {:induction false} TotalSplitAll(rows: seq<Row>, g: seq<Correction>, k: nat, base: nat, share: real)
    requires k > 0
    requires forall c, b :: Total(Shares(rows, c, k, b)) == share
    ensures Total(SplitAll(rows, g, k, base)) == Times(|g|, share)
    decreases |g|
  {
    if g != [] {
      var first := Shares(rows, g[0], k, base);
      var others := SplitAll(rows, g[1..], k, base + |rows|);
      assert SplitAll(rows, g, k, base) == first + others;
      assert Total(first) == share;
      TotalSplitAll(rows, g[1..], k, base + |rows|, share);
      TotalAppend(first, others);
    }
  }

  /** The inner loop appends exactly the blocks of `SplitAll`, labelled from the frame's length. */
  lemma {:induction false} AppendSharesSplitAll(f: seq<Row>, rows: seq<Row>, g: seq<Correction>, k: nat)
    requires k > 0
    ensures AppendShares(f, rows, g, k) == f + SplitAll(rows, g, k, |f|)
    decreases |g|
  {
    if g != [] {
      var sh := Shares(rows, g[0], k, |f|);
      AppendSharesSplitAll(f + sh, rows, g[1..], k);
      assert |f + sh| == |f| + |rows|;
      assert (f + sh) + SplitAll(rows, g[1..], k, |f| + |rows|) == f + (sh + SplitAll(rows, g[1..], k, |f| + |rows|));
    }
  }

  lemma {:induction false} SplitAllIds(rows: seq<Row>, g: seq<Correction>, k: nat, base: nat)
    requires k > 0
    ensures forall j :: 0 <= j < |SplitAll(rows, g, k, base)| ==> SplitAll(rows, g, k, base)[j].id >= base
    decreases |g|
  {
    if g != [] {
      SplitAllIds(rows, g[1..], k, base + |rows|);
    }
  }

  // ---------------------------------------------------------------
  // The merge as intended
  // ---------------------------------------------------------------

  /** One more than the largest label (0 for an empty frame): a label no row has. */
  function Fresh(f: seq<Row>): (r: nat)
    ensures forall i :: 0 <= i < |f| ==> f[i].id < r
  {
    if f == [] then 0
    else
      var n := |f| - 1;
      var before := Fresh(f[..n]);
      assert forall i :: 0 <= i < n ==> f[i] == f[..n][i];
      if f[n].id + 1 > before then f[n].id + 1 else before
  }

  /** Every row of the charge `m` renamed. */
  function RenameCharge(f: seq<Row>, m: ChargeRecord, c: Correction): seq<Row> {
    seq(|f|, i requires 0 <= i < |f| => if SameCharge(f[i].rec, m) then Row(f[i].id, Renamed(f[i].rec, c)) else f[i])
  }

  /**
   * One pass for the row label `l`, as intended: the charge is the input
   * row with that label; its rows are renamed for one animal, or replaced
   * by one block of copies per animal, with fresh labels, however many rows
   * the charge has.
   */
  function StepFixed(orig: seq<Row>, f: seq<Row>, l: nat, corrected: seq<Correction>): seq<Row> {
    var g := Group(corrected, l);
    var hit := Where(orig, (r: Row) => r.id == l);
    if g == [] || hit == [] then f
    else
      var m := hit[0].rec;
      if |g| == 1 then RenameCharge(f, m, g[0])
      else Where(f, NotOfCharge(m)) + SplitAll(Where(f, OfCharge(m)), g, |g|, Fresh(f))
  }

  function StepsFixed(orig: seq<Row>, f: seq<Row>, labels: seq<nat>, corrected: seq<Correction>): seq<Row>
    decreases |labels|
  {
    if labels == [] then f else StepsFixed(orig, StepFixed(orig, f, labels[0], corrected), labels[1..], corrected)
  }

  /** `update_invoice_data` as intended. */
  function UpdateFixed(inData: seq<Row>, corrected: seq<Correction>): seq<Row> {
    StepsFixed(inData, inData, Labels(inData), corrected)
  }

  /** A renaming pass changes names and codes only, so the total stays. */
  lemma {:induction false} TotalRenameCharge(f: seq<Row>, m: ChargeRecord, c: Correction)
    ensures Total(RenameCharge(f, m, c)) == Total(f)
  {
    if f != [] {
      var n := |f| - 1;
      assert RenameCharge(f, m, c)[..n] == RenameCharge(f[..n], m, c);
      TotalRenameCharge(f[..n], m, c);
      ShareAmount(f[n].rec, c, 1);
    }
  }

  /** Each pass of the intended merge keeps the total amount. */
  lemma TotalStepFixed(orig: seq<Row>, f: seq<Row>, l: nat, corrected: seq<Correction>)
    ensures Total(StepFixed(orig, f, l, corrected)) == Total(f)
  {
    var g := Group(corrected, l);
    var hit := Where(orig, (r: Row) => r.id == l);
    if g != [] && hit != [] {
      var m := hit[0].rec;
      if |g| == 1 {
        TotalRenameCharge(f, m, g[0]);
      } else {
        TotalSplitCharge(f, m, g);
      }
    }
  }

  /** Replacing a charge's rows by one block of shares per animal keeps the total. */
  lemma TotalSplitCharge(f: seq<Row>, m: ChargeRecord, g: seq<Correction>)
    requires g != []
    ensures Total(Where(f, NotOfCharge(m)) + SplitAll(Where(f, OfCharge(m)), g, |g|, Fresh(f))) == Total(f)
  {
    var rows := Where(f, OfCharge(m));
    var rest := Where(f, NotOfCharge(m));
    var split := SplitAll(rows, g, |g|, Fresh(f));
    var t := Total(rows);
    TotalPartition(f, OfCharge(m), NotOfCharge(m));
    assert Total(f) == t + Total(rest);
    TotalAppend(rest, split);
    forall c, b ensures Total(Shares(rows, c, |g|, b)) == t / |g| as real {
      TotalShares(rows, c, |g|, b);
    }
    TotalSplitAll(rows, g, |g|, Fresh(f), t / |g| as real);
    TimesShare(|g|, t);
  }

  /** The intended merge keeps the total COSTAMOUNT of the failed rows. */
  lemma {:induction false} TotalUpdateFixed(orig: seq<Row>, f: seq<Row>, labels: seq<nat>, corrected: seq<Correction>)
    ensures Total(StepsFixed(orig, f, labels, corrected)) == Total(f)
    decreases |labels|
  {
    if labels != [] {
      TotalStepFixed(orig, f, labels[0], corrected);
      TotalUpdateFixed(orig, StepFixed(orig, f, labels[0], corrected), labels[1..], corrected);
    }
  }

  // ---------------------------------------------------------------
  // The merge as written against the merge as intended
  // ---------------------------------------------------------------

  /** A frame read from a file: every row's label is its position. */
  predicate RangeIndex(f: seq<Row>) {
    forall i :: 0 <= i < |f| ==> f[i].id == i
  }

  /** With distinct labels, a row's label is among the charge's labels exactly when the row belongs to the charge. */
  lemma ChargeLabelsDistinct(f: seq<Row>, m: ChargeRecord)
    requires DistinctLabels(f)
    ensures forall i :: 0 <= i < |f| ==> (f[i].id in ChargeLabels(f, m) <==> SameCharge(f[i].rec, m))
  {
    var rows := Where(f, OfCharge(m));
    var idx := ChargeLabels(f, m);
    WhereMembers(f, OfCharge(m));
    forall i | 0 <= i < |f| && SameCharge(f[i].rec, m)
      ensures f[i].id in idx
    {
      assert f[i] in rows;
      var j :| 0 <= j < |rows| && rows[j] == f[i];
      assert idx[j] == f[i].id;
    }
    forall i, j | 0 <= i < |f| && 0 <= j < |idx| && idx[j] == f[i].id
      ensures SameCharge(f[i].rec, m)
    {
      assert rows[j] in rows;
      var i' :| 0 <= i' < |f| && f[i'] == rows[j];
      assert f[i'].id == f[i].id;
    }
  }

  /** On a frame labelled by position, the charge's labels are the positions of its rows. */
  lemma ChargeLabelsRange(f: seq<Row>, m: ChargeRecord)
    requires RangeIndex(f)
    ensures forall j :: 0 <= j < |ChargeLabels(f, m)| ==> ChargeLabels(f, m)[j] < |f|
    ensures At(f, ChargeLabels(f, m)) == Where(f, OfCharge(m))
  {
    var rows := Where(f, OfCharge(m));
    var idx := ChargeLabels(f, m);
    WhereMembers(f, OfCharge(m));
    forall j | 0 <= j < |idx|
      ensures idx[j] < |f| && f[idx[j]] == rows[j]
    {
      assert rows[j] in rows;
      var i :| 0 <= i < |f| && f[i] == rows[j];
    }
  }

  /** On a frame labelled by position, the next free label is the length. */
  lemma {:induction false} FreshRange(f: seq<Row>)
    requires RangeIndex(f)
    ensures Fresh(f) == |f|
  {
    if f != [] {
      var n := |f| - 1;
      assert forall i :: 0 <= i < n ==> f[..n][i] == f[i];
      FreshRange(f[..n]);
    }
  }

  /** On a frame labelled by position, the row labelled `l` is the row at position `l`. */
  lemma HitRange(f: seq<Row>, l: nat)
    requires RangeIndex(f) && l < |f|
    ensures Where(f, (r: Row) => r.id == l) == [f[l]]
  {
    assert UniqueAt(f, (r: Row) => r.id == l, l);
    WhereSingle(f, (r: Row) => r.id == l);
  }

  /**
   * A one-animal group, as written: every row with the indexed row's
   * ANIMALNAME and invoice gets the animal, every other row is unchanged,
   * and no label changes.
   */
  lemma OneAnimalStep(f: seq<Row>, l: nat, corrected: seq<Correction>)
    requires DistinctLabels(f) && l < |f| && |Group(corrected, l)| == 1
    ensures StepAsWritten(f, l, corrected) == Ok(RenameCharge(f, f[l].rec, Group(corrected, l)[0]))
  {
    var m := f[l].rec;
    var c := Group(corrected, l)[0];
    ChargeLabelsDistinct(f, m);
    if ChargeLabels(f, m) == [] {
      assert RenameCharge(f, m, c) == f;
    } else {
      assert RenameLabels(f, ChargeLabels(f, m), c) == RenameCharge(f, m, c);
    }
  }

  /**
   * A group of two or more animals for a charge of one row, as written:
   * `nrow` is then a one-row DataFrame, which has no `to_frame`, and the
   * merge raises (after the division of its amount, which may raise first).
   */
  lemma SingleRowSplitRaises(f: seq<Row>, l: nat, corrected: seq<Correction>)
    requires RangeIndex(f) && l < |f| && |Group(corrected, l)| >= 2
    requires SameCharge(f[l].rec, f[l].rec)
    requires forall i :: 0 <= i < |f| && i != l ==> !SameCharge(f[i].rec, f[l].rec)
    ensures StepAsWritten(f, l, corrected).Err?
    ensures HasAmountColumn(f) && NumericAmount(f[l].rec) ==> StepAsWritten(f, l, corrected) == Err(ToFrameError)
  {
    assert UniqueAt(f, OfCharge(f[l].rec), l);
    WhereSingle(f, OfCharge(f[l].rec));
  }

  /** The charge has labels exactly when a row has its ANIMALNAME and invoice. */
  lemma ChargeLabelsNonEmpty(f: seq<Row>, m: ChargeRecord)
    ensures ChargeLabels(f, m) != [] <==> exists i :: 0 <= i < |f| && SameCharge(f[i].rec, m)
  {
    var rows := Where(f, OfCharge(m));
    WhereMembers(f, OfCharge(m));
    if exists i :: 0 <= i < |f| && SameCharge(f[i].rec, m) {
      var i :| 0 <= i < |f| && SameCharge(f[i].rec, m);
      assert f[i] in rows;
    }
    if rows != [] {
      assert rows[0] in rows;
      var i :| 0 <= i < |f| && f[i] == rows[0];
    }
  }

  /** The rows of a charge all divide exactly when each has a numeric or missing amount. */
  lemma ChargeRowsDivisible(f: seq<Row>, m: ChargeRecord)
    ensures Divisible(Where(f, OfCharge(m))) <==>
              forall i :: 0 <= i < |f| && SameCharge(f[i].rec, m) ==> NumericAmount(f[i].rec)
  {
    var rows := Where(f, OfCharge(m));
    WhereMembers(f, OfCharge(m));
    if Divisible(rows) {
      forall i | 0 <= i < |f| && SameCharge(f[i].rec, m) ensures NumericAmount(f[i].rec) {
        assert f[i] in rows;
        var j :| 0 <= j < |rows| && rows[j] == f[i];
      }
    }
    if forall i :: 0 <= i < |f| && SameCharge(f[i].rec, m) ==> NumericAmount(f[i].rec) {
      forall j | 0 <= j < |rows| ensures NumericAmount(rows[j].rec) {
        assert rows[j] in rows;
        var i :| 0 <= i < |f| && f[i] == rows[j];
      }
    }
  }

  /**
   * A split as written, on a frame labelled by position, divides COSTAMOUNT
   * before anything else can fail: it raises KeyError when no row has an
   * amount, and otherwise TypeError exactly when a row of the charge holds
   * an amount that is not a number.
   */
  lemma SplitAmountRaises(f: seq<Row>, l: nat, corrected: seq<Correction>)
    requires RangeIndex(f) && l < |f| && |Group(corrected, l)| >= 2
    requires SameCharge(f[l].rec, f[l].rec)
    ensures StepAsWritten(f, l, corrected) == Err(AmountKeyError) <==> !HasAmountColumn(f)
    ensures HasAmountColumn(f) ==>
              (StepAsWritten(f, l, corrected) == Err(AmountTypeError) <==>
                 exists i :: 0 <= i < |f| && SameCharge(f[i].rec, f[l].rec) && !NumericAmount(f[i].rec))
  {
    ChargeLabelsNonEmpty(f, f[l].rec);
    ChargeLabelsRange(f, f[l].rec);
    ChargeRowsDivisible(f, f[l].rec);
  }

  /** Copying no rows gives no copies. */
  lemma {:induction false} SplitAllNone(g: seq<Correction>, k: nat, base: nat)
    requires k > 0
    ensures SplitAll([], g, k, base) == []
    decreases |g|
  {
    if g != [] {
      SplitAllNone(g[1..], k, base);
    }
  }

  /**
   * A split, as written, on a frame labelled by position: appending the
   * shares and dropping the charge's labels is the intended replacement of
   * the charge's rows by the shares.
   */
  lemma SplitStepRange(f: seq<Row>, m: ChargeRecord, g: seq<Correction>)
    requires RangeIndex(f) && |g| >= 2
    ensures var idx := ChargeLabels(f, m);
            (forall j :: 0 <= j < |idx| ==> idx[j] < |f|) &&
            DropLabels(AppendShares(f, At(f, idx), g, |g|), idx) ==
              Where(f, NotOfCharge(m)) + SplitAll(Where(f, OfCharge(m)), g, |g|, Fresh(f))
  {
    var idx := ChargeLabels(f, m);
    var rows := Where(f, OfCharge(m));
    var out := (r: Row) => r.id !in idx;
    ChargeLabelsRange(f, m);
    ChargeLabelsDistinct(f, m);
    FreshRange(f);
    var split := SplitAll(rows, g, |g|, |f|);
    AppendSharesSplitAll(f, rows, g, |g|);
    WhereAppend(f, split, out);
    SplitAllIds(rows, g, |g|, |f|);
    WhereAll(split, out);
    WhereSame(f, out, NotOfCharge(m));
  }

  /**
   * On a frame labelled by position, one pass as written is the intended
   * pass, except for the one-row split that raises.
   */
  lemma FirstStepAgrees(f: seq<Row>, l: nat, corrected: seq<Correction>)
    requires RangeIndex(f) && l < |f|
    requires |Group(corrected, l)| >= 2 ==> |ChargeLabels(f, f[l].rec)| != 1
    requires |Group(corrected, l)| >= 2 && SameCharge(f[l].rec, f[l].rec) ==>
               HasAmountColumn(f) && forall i :: 0 <= i < |f| && SameCharge(f[i].rec, f[l].rec) ==> NumericAmount(f[i].rec)
    ensures StepAsWritten(f, l, corrected) == Ok(StepFixed(f, f, l, corrected))
  {
    var g := Group(corrected, l);
    if g != [] {
      var m := f[l].rec;
      HitRange(f, l);
      if |g| == 1 {
        OneAnimalStep(f, l, corrected);
      } else if ChargeLabels(f, m) == [] {
        var rows := Where(f, OfCharge(m));
        assert rows == [];
        WhereMembers(f, OfCharge(m));
        forall j | 0 <= j < |f| ensures NotOfCharge(m)(f[j]) {
          assert f[j] !in rows;
        }
        WhereAll(f, NotOfCharge(m));
        SplitAllNone(g, |g|, Fresh(f));
        assert f + [] == f;
        assert StepFixed(f, f, l, corrected) == f;
        assert StepAsWritten(f, l, corrected) == Ok(f);
      } else {
        ChargeLabelsRange(f, m);
        ChargeLabelsNonEmpty(f, m);
        ChargeRowsDivisible(f, m);
        SplitStepRange(f, m, g);
        assert StepFixed(f, f, l, corrected) == Where(f, NotOfCharge(m)) + SplitAll(Where(f, OfCharge(m)), g, |g|, Fresh(f));
      }
    }
  }

  // A frame on which the merge as written picks the wrong charge: three rows
  // of invoice 1, two for the animal A and one for C; the A charge is split
  // between X and Y, and C is corrected to P.

  function ChargeOf(name: string): ChargeRecord {
    map["ANIMALNAME" := Text(name), "invoice" := Text("1"), "COSTAMOUNT" := Amount(10.0)]
  }

  function SampleFrame(): seq<Row> {
    [Row(0, ChargeOf("A")), Row(1, ChargeOf("A")), Row(2, ChargeOf("C"))]
  }

  function SampleCorrections(): seq<Correction> {
    [Correction("0", "X", "AX", 0), Correction("0_1", "Y", "AY", 0), Correction("2", "P", "AP", 2)]
  }

  /** The frame after the split of the A charge: C, then the X copies and the Y copies, labelled 3 to 6. */
  function SampleSplit(): seq<Row> {
    var a := ChargeOf("A");
    var cs := SampleCorrections();
    [Row(2, ChargeOf("C")), Row(3, Share(a, cs[0], 2)), Row(4, Share(a, cs[0], 2)),
     Row(5, Share(a, cs[1], 2)), Row(6, Share(a, cs[1], 2))]
  }

  lemma SampleGroups()
    ensures var cs := SampleCorrections();
            Group(cs, 0) == cs[..2] && Group(cs, 1) == [] && Group(cs, 2) == [cs[2]]
  {
    var cs := SampleCorrections();
    assert cs == cs[..2] + [cs[2]];
    WhereAppend(cs[..2], [cs[2]], InGroup(0));
    WhereAll(cs[..2], InGroup(0));
    WhereNone(cs, InGroup(1));
    assert UniqueAt(cs, InGroup(2), 2);
    WhereSingle(cs, InGroup(2));
  }

  /** The A charge is the first two rows of the sample, and C is the rest. */
  lemma SampleCharge()
    ensures var f := SampleFrame();
            var a := ChargeOf("A");
            Where(f, OfCharge(a)) == f[..2] && Where(f, NotOfCharge(a)) == [f[2]] &&
            ChargeLabels(f, a) == [0, 1]
  {
    var f := SampleFrame();
    var a := ChargeOf("A");
    assert f == f[..2] + [f[2]];
    WhereAppend(f[..2], [f[2]], OfCharge(a));
    WhereAll(f[..2], OfCharge(a));
    WhereNone([f[2]], OfCharge(a));
    WhereAppend(f[..2], [f[2]], NotOfCharge(a));
    WhereNone(f[..2], NotOfCharge(a));
    WhereAll([f[2]], NotOfCharge(a));
  }

  /** The copies of the A rows for X and then Y, labelled from 3. */
  lemma SampleShares()
    ensures var f := SampleFrame();
            SplitAll(f[..2], SampleCorrections()[..2], 2, 3) == SampleSplit()[1..]
  {
    var f := SampleFrame();
    var cs := SampleCorrections()[..2];
    assert cs[1..][1..] == [];
    assert SplitAll(f[..2], cs, 2, 3) ==
           Shares(f[..2], cs[0], 2, 3) + (Shares(f[..2], cs[1], 2, 5) + []);
  }

  /** The first pass splits the A charge: both versions give `SampleSplit`. */
  lemma SampleFirstStep()
    ensures StepFixed(SampleFrame(), SampleFrame(), 0, SampleCorrections()) == SampleSplit()
    ensures StepAsWritten(SampleFrame(), 0, SampleCorrections()) == Ok(SampleSplit())
  {
    var f := SampleFrame();
    var cs := SampleCorrections();
    SampleGroups();
    SampleCharge();
    SampleShares();
    HitRange(f, 0);
    FreshRange(f);
    assert StepFixed(f, f, 0, cs) == [f[2]] + SampleSplit()[1..];
    FirstStepAgrees(f, 0, cs);
  }

  /** On the split frame, label 2 is the position of an X copy, not of the C row. */
  lemma SampleLastStep()
    ensures StepAsWritten(SampleSplit(), 2, SampleCorrections()) ==
            Ok(RenameCharge(SampleSplit(), SampleSplit()[2].rec, SampleCorrections()[2]))
    ensures StepFixed(SampleFrame(), SampleSplit(), 2, SampleCorrections()) ==
            RenameCharge(SampleSplit(), ChargeOf("C"), SampleCorrections()[2])
  {
    var f := SampleSplit();
    SampleGroups();
    assert DistinctLabels(f);
    OneAnimalStep(f, 2, SampleCorrections());
    HitRange(SampleFrame(), 2);
  }

  /**
   * After the split, `invoice.iloc[2]` is an X copy: as written, the X
   * copies become P and the C row keeps its animal.
   */
  lemma SplitShiftsPositions()
    ensures var w := UpdateAsWritten(SampleFrame(), SampleCorrections());
            w.Ok? && |w.value| == 5 && w.value[0] == Row(2, ChargeOf("C")) &&
            w.value[1].rec == Renamed(Share(ChargeOf("A"), SampleCorrections()[0], 2), SampleCorrections()[2])
  {
    var cs := SampleCorrections();
    var s := SampleSplit();
    SampleGroups();
    SampleFirstStep();
    SampleLastStep();
    assert StepAsWritten(s, 1, cs) == Ok(s);
    assert SameCharge(s[1].rec, s[2].rec);
  }

  /** As intended, the three passes over the sample are the split and then the renaming of the C charge. */
  lemma SampleUpdateFixed()
    ensures UpdateFixed(SampleFrame(), SampleCorrections()) ==
            RenameCharge(SampleSplit(), ChargeOf("C"), SampleCorrections()[2])
  {
    var f := SampleFrame();
    var cs := SampleCorrections();
    var s := SampleSplit();
    SampleGroups();
    SampleFirstStep();
    SampleLastStep();
    SampleMiddleStep();
    assert Labels(f) == [0, 1, 2];
    assert [0, 1, 2][1..] == [1, 2] && [1, 2][1..] == [2] && [2][1..] == [];
  }

  /** No correction names the row labelled 1, so its pass changes nothing. */
  lemma SampleMiddleStep()
    ensures StepFixed(SampleFrame(), SampleSplit(), 1, SampleCorrections()) == SampleSplit()
  {
    SampleGroups();
  }

  /** With labels read as labels, the same corrections rename the C row and leave the copies alone. */
  lemma SplitFixedRenamesLabel()
    ensures var u := UpdateFixed(SampleFrame(), SampleCorrections());
            |u| == 5 && u[0] == Row(2, Renamed(ChargeOf("C"), SampleCorrections()[2])) &&
            u[1] == SampleSplit()[1]
  {
    var s := SampleSplit();
    SampleUpdateFixed();
    assert !SameCharge(s[1].rec, ChargeOf("C"));
  }



}
