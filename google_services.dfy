// src/google_services.py: how `Processor` files the attachments of the
// invoice emails.  Only payload parts with a filename and an attachment id
// are attachments; each is stored under `{date}_{sender}_{name}` with ".pdf"
// added when missing; a non-invoice name is recorded and never parsed; the
// matched rows of a parsed invoice are split into successes and failures,
// and the invoice is counted as one or the other.  The Gmail and Drive
// services are not modelled: a fetched message and the outcome of parsing
// one of its attachments come in as values, and the uploads and label moves
// the code requests are recorded in an `Outbox`.

module GoogleServices {
  import opened Base
  import opened Frames
  import opened Procedures
  import opened Classifier
  import AnimalDb
  import opened MailHeaders

  /** The two Gmail date formats, tried in this order. */
  const GmailDate := "%a, %d %b %Y %H:%M:%S %z"
  const GmailDateZone := "%a, %d %b %Y %H:%M:%S %z (%Z)"
  const GmailFormats: seq<string> := [GmailDate, GmailDateZone]

  // ---------------------------------------------------------------
  // Messages and attachments
  // ---------------------------------------------------------------

  /** A payload part: its filename, the attachment id of its body if any, its MIME type. */
  datatype Part = Part(filename: string, attachmentId: Option<string>, mimeType: string)

  /** A fetched message: its id, its headers and its payload parts. */
  datatype MailMessage = MailMessage(id: string, headers: seq<Header>, parts: seq<Part>)

  /** `p.get("filename") and "attachmentId" in p.get("body", {})` */
  predicate IsAttachment(p: Part) { p.filename != [] && p.attachmentId.Some? }

  /** The attachments of a payload, in payload order. */
  function Attachments(parts: seq<Part>): seq<Part> {
    Where(parts, IsAttachment)
  }

  /** A part is kept exactly when it has a non-empty filename and an attachment id. */
  lemma AttachmentsRule(parts: seq<Part>)
    ensures forall p :: p in Attachments(parts) <==> p in parts && p.filename != [] && p.attachmentId.Some?
  {
    WhereMembers(parts, IsAttachment);
  }

  predicate IsBlank(c: char) { c == ' ' }

  /** `normalized_name`: the attachment's filename with every space written '_'. */
  function NormalizedName(filename: string): string {
    MapChars(filename, IsBlank, '_')
  }

  /** The name an attachment is stored and reported under. */
  function AttachmentFilename(date: string, sender: string, filename: string): string {
    var n := NormalizedName(filename);
    date + "_" + sender + "_" + n + (if EndsWith(n, ".pdf") then "" else ".pdf")
  }

  /**
   * The stored name is the date, the sender and the spaceless filename
   * joined by '_', and it ends in ".pdf", which is added exactly when the
   * filename does not already end in it.
   */
  lemma AttachmentFilenameRule(date: string, sender: string, filename: string)
    ensures var n := NormalizedName(filename);
            var f := AttachmentFilename(date, sender, filename);
            |n| == |filename| && ' ' !in n &&
            (forall i :: 0 <= i < |n| ==> n[i] == (if filename[i] == ' ' then '_' else filename[i])) &&
            EndsWith(f, ".pdf") &&
            (EndsWith(n, ".pdf") <==> f == date + "_" + sender + "_" + n) &&
            (!EndsWith(n, ".pdf") <==> f == date + "_" + sender + "_" + n + ".pdf")
  {
    var n := NormalizedName(filename);
    var prefix := date + "_" + sender + "_";
    var f := AttachmentFilename(date, sender, filename);
    if EndsWith(n, ".pdf") {
      assert f == prefix + n;
      assert f[|f| - 4..] == n[|n| - 4..];
      assert f != prefix + n + ".pdf" by { assert |f| < |prefix + n + ".pdf"|; }
    } else {
      assert f == prefix + n + ".pdf";
      assert f[|f| - 4..] == ".pdf";
      assert f != prefix + n by { assert |f| > |prefix + n|; }
    }
  }

  /** `re.search(NON_INVOICE_REGEXES, name.lower())` for a literal alternation `words`. */
  predicate IsNonInvoice(words: seq<string>, name: string) {
    ContainsAny(Lower(name), words)
  }

  // ---------------------------------------------------------------
  // Matched and unmatched rows
  // ---------------------------------------------------------------

  /** `parsed_items['ANIMALCODE'] == 'ERROR_CODE'`: the matcher found no animal for the row. */
  predicate Unmatched(r: ChargeRecord) {
    "ANIMALCODE" in r && r["ANIMALCODE"] == Text(AnimalDb.ErrorCode)
  }

  /** `success_condition`: the row carries an animal code. */
  predicate Matched(r: ChargeRecord) { !Unmatched(r) }

  /** `parsed_items[~success_condition].empty`: no row is left unmatched. */
  predicate Complete(rows: seq<ChargeRecord>) { Where(rows, Unmatched) == [] }

  /**
   * The successes and the failures split the rows: between them they hold
   * every row exactly as often as the rows do, no row is in both, and the
   * invoice is complete exactly when every row is matched.
   */
  lemma SplitRule(rows: seq<ChargeRecord>)
    ensures multiset(Where(rows, Matched)) + multiset(Where(rows, Unmatched)) == multiset(rows)
    ensures forall r :: r in Where(rows, Matched) <==> r in rows && Matched(r)
    ensures forall r :: r in Where(rows, Unmatched) <==> r in rows && Unmatched(r)
    ensures Complete(rows) <==> forall i :: 0 <= i < |rows| ==> Matched(rows[i])
  {
    WhereSplit(rows, Matched, Unmatched);
    WhereMembers(rows, Matched);
    WhereMembers(rows, Unmatched);
    if Complete(rows) {
      forall i | 0 <= i < |rows| ensures Matched(rows[i]) {
        assert rows[i] in rows;
      }
    } else {
      var x := Where(rows, Unmatched)[0];
      assert x in Where(rows, Unmatched);
    }
  }

  // ---------------------------------------------------------------
  // Statistics
  // ---------------------------------------------------------------

  /** The contents of the `Statistics` lists. */
  datatype Counts = Counts(successList: seq<seq<ChargeRecord>>, failureList: seq<seq<ChargeRecord>>,
                           successfulNames: seq<string>, failureNames: seq<string>, nonInvoices: seq<string>)

  const NoCounts := Counts([], [], [], [], [])

  /** "Total PDFs" in the summary. */
  function TotalPdfs(c: Counts): nat {
    |c.successfulNames| + |c.failureNames|
  }

  class Statistics {
    var emailsCount: int
    var successList: seq<seq<ChargeRecord>>
    var failureList: seq<seq<ChargeRecord>>
    var successfulNames: seq<string>
    var failureNames: seq<string>
    var nonInvoices: seq<string>

    constructor(emailsCount: int)
      ensures this.emailsCount == emailsCount && Snapshot() == NoCounts
    {
      this.emailsCount := emailsCount;
      successList := [];
      failureList := [];
      successfulNames := [];
      failureNames := [];
      nonInvoices := [];
    }

    function Snapshot(): Counts
      reads this
    {
      Counts(successList, failureList, successfulNames, failureNames, nonInvoices)
    }

    /** `non_invoices.append(name)` */
    method AddNonInvoice(name: string)
      modifies this
      ensures Snapshot() == old(Snapshot()).(nonInvoices := old(nonInvoices) + [name])
      ensures emailsCount == old(emailsCount)
    {
      nonInvoices := nonInvoices + [name];
    }
  }

  /** What a parsed invoice named `name` adds to the lists. */
  function Recorded(c: Counts, name: string, rows: seq<ChargeRecord>): Counts {
    var c1 := if rows == [] then c
              else c.(successList := c.successList + [Where(rows, Matched)],
                      failureList := c.failureList + [Where(rows, Unmatched)]);
    if Complete(rows) then c1.(successfulNames := c1.successfulNames + [name])
    else c1.(failureNames := c1.failureNames + [name])
  }

  /**
   * A parsed invoice is counted once, as a success exactly when all its
   * rows are matched (so an invoice with no rows is a success), and
   * otherwise as a failure; a non-empty invoice adds its matched and
   * unmatched rows, which together are its rows.
   */
  lemma RecordedRule(c: Counts, name: string, rows: seq<ChargeRecord>)
    ensures var d := Recorded(c, name, rows);
            TotalPdfs(d) == TotalPdfs(c) + 1 && d.nonInvoices == c.nonInvoices &&
            ((forall i :: 0 <= i < |rows| ==> Matched(rows[i])) <==>
               d.successfulNames == c.successfulNames + [name] && d.failureNames == c.failureNames) &&
            ((exists i :: 0 <= i < |rows| && Unmatched(rows[i])) <==>
               d.failureNames == c.failureNames + [name] && d.successfulNames == c.successfulNames) &&
            (rows == [] ==> d.successList == c.successList && d.failureList == c.failureList) &&
            (rows != [] ==> |d.successList| == |c.successList| + 1 && |d.failureList| == |c.failureList| + 1 &&
                            multiset(d.successList[|c.successList|]) + multiset(d.failureList[|c.failureList|]) == multiset(rows))
  {
    SplitRule(rows);
  }

  /** Where a parsed invoice is stored, and whether its email is moved. */
  datatype ParsedInvoice = ParsedInvoice(name: string, rows: seq<ChargeRecord>, driveCompleted: string, driveIncomplete: string)

  /**
   * What `get_parser`, `parse_invoice` and `match_animals` make of an
   * attachment: the parser's name, the matched rows and the parser's Drive
   * folders; or an exception before the parser renamed the file, or one
   * raised by the matcher after it did.
   */
  datatype Outcome = Parsed(inv: ParsedInvoice) | ParseRaised | MatchRaised(name: string)

  /** The folder and the move flag `process_invoiced_attachment` returns. */
  function Destination(inv: ParsedInvoice): (string, bool) {
    if Complete(inv.rows) then (inv.driveCompleted, true) else (inv.driveIncomplete, false)
  }

  /**
   * `Processor.process_invoiced_attachment`: an exception leaves the
   * statistics as they were and propagates; otherwise the invoice is
   * recorded under the attachment's own name and its folder returned.
   */
  method ProcessInvoicedAttachment(stats: Statistics, filename: string, outcome: Outcome)
    returns (r: Result<(string, bool)>)
    modifies stats
    ensures outcome.Parsed? ==> stats.Snapshot() == Recorded(old(stats.Snapshot()), filename, outcome.inv.rows) &&
                                r == Ok(Destination(outcome.inv))
    ensures !outcome.Parsed? ==> stats.Snapshot() == old(stats.Snapshot()) && r.Err?
    ensures stats.emailsCount == old(stats.emailsCount)
  {
    if !outcome.Parsed? {
      return Err("the invoice could not be parsed or matched");
    }
    var rows := outcome.inv.rows;
    var success := Where(rows, Matched);
    var failure := Where(rows, Unmatched);
    if rows != [] {
      stats.successList := stats.successList + [success];
      stats.failureList := stats.failureList + [failure];
    }
    var move := false;
    var folder: string;
    if failure == [] {
      stats.successfulNames := stats.successfulNames + [filename];
      move := true;
      folder := outcome.inv.driveCompleted;
    } else {
      stats.failureNames := stats.failureNames + [filename];
      folder := outcome.inv.driveIncomplete;
    }
    r := Ok((folder, move));
  }

  // ---------------------------------------------------------------
  // process_message and process_invoices
  // ---------------------------------------------------------------

  /** A Drive folder: one under the invoice folder, or the unprocessed folder. */
  datatype Folder = InvoiceSubfolder(name: string) | UnprocessedFolder

  /** An upload the code asks Drive for. */
  datatype Upload = Upload(name: string, folder: Folder, mimeType: string)

  /** The requests sent out: Drive uploads and the ids of the messages moved to the done label. */
  class Outbox {
    var uploads: seq<Upload>
    var moves: seq<string>

    constructor()
      ensures uploads == [] && moves == []
    {
      uploads := [];
      moves := [];
    }
  }

  /** The statistics together with the requests sent out. */
  datatype Tally = Tally(counts: Counts, uploads: seq<Upload>, moves: seq<string>)

  /**
   * The parsing and matching of an attachment, given the part and the name
   * it is stored under. It is left as a parameter: the steps it composes
   * (PDF text extraction, `get_parser`, `parse_invoice` and
   * `match_animals`) are specified separately, by
   * `Invoices.ParseInvoiceSpec` and `AnimalDb.MatchAnimalsSpec`, and this
   * model does not tie the two together.
   */
  type Runner = (Part, string) -> Outcome

  /** One attachment of message `id`, stored under `name`. */
  function Handle(t: Tally, id: string, name: string, p: Part, outcome: Outcome): Tally {
    if IsNonInvoice(NonInvoiceWords, name) then
      t.(counts := t.counts.(nonInvoices := t.counts.nonInvoices + [name]))
    else if outcome.Parsed? then
      var (folder, move) := Destination(outcome.inv);
      Tally(Recorded(t.counts, name, outcome.inv.rows),
            t.uploads + [Upload(name, InvoiceSubfolder(folder), p.mimeType)],
            if move then t.moves + [id] else t.moves)
    else
      t.(uploads := t.uploads + [Upload(name, UnprocessedFolder, p.mimeType)])
  }

  /** The attachments `atts` of message `id`, in order. */
  function HandleAll(t: Tally, id: string, date: string, sender: string, atts: seq<Part>, run: Runner): Tally
    decreases |atts|
  {
    if atts == [] then t
    else
      var n := |atts| - 1;
      var name := AttachmentFilename(date, sender, atts[n].filename);
      Handle(HandleAll(t, id, date, sender, atts[..n], run), id, name, atts[n], run(atts[n], name))
  }

  /** One more attachment. */
  lemma HandleAllStep(t: Tally, id: string, date: string, sender: string, atts: seq<Part>, i: nat, run: Runner)
    requires i < |atts|
    ensures var name := AttachmentFilename(date, sender, atts[i].filename);
            HandleAll(t, id, date, sender, atts[..i + 1], run) ==
            Handle(HandleAll(t, id, date, sender, atts[..i], run), id, name, atts[i], run(atts[i], name))
  {
    assert atts[..i + 1][..i] == atts[..i] && atts[..i + 1][i] == atts[i];
  }

  /** The attachment is stored under a non-invoice name, so it is recorded and skipped. */
  function Skipped(date: string, sender: string): Part -> bool {
    (p: Part) => IsNonInvoice(NonInvoiceWords, AttachmentFilename(date, sender, p.filename))
  }

  /** The attachment is an invoice that parsed and matched, so it is counted. */
  function Filed(date: string, sender: string, run: Runner): Part -> bool {
    (p: Part) => var name := AttachmentFilename(date, sender, p.filename);
                 !IsNonInvoice(NonInvoiceWords, name) && run(p, name).Parsed?
  }

  /** Every list of `u` continues the same list of `t`. */
  predicate Extends(t: Tally, u: Tally) {
    var c, d := t.counts, u.counts;
    c.successList <= d.successList && c.failureList <= d.failureList &&
    c.successfulNames <= d.successfulNames && c.failureNames <= d.failureNames &&
    c.nonInvoices <= d.nonInvoices && t.uploads <= u.uploads && t.moves <= u.moves
  }

  /** The names `u` adds to the lists: non-invoices under non-invoice names, counted invoices under the others. */
  predicate NamesAdded(t: Tally, u: Tally) {
    (forall i :: |t.counts.nonInvoices| <= i < |u.counts.nonInvoices| ==>
       IsNonInvoice(NonInvoiceWords, u.counts.nonInvoices[i])) &&
    (forall i :: |t.counts.successfulNames| <= i < |u.counts.successfulNames| ==>
       !IsNonInvoice(NonInvoiceWords, u.counts.successfulNames[i])) &&
    (forall i :: |t.counts.failureNames| <= i < |u.counts.failureNames| ==>
       !IsNonInvoice(NonInvoiceWords, u.counts.failureNames[i]))
  }

  /** What one attachment does to the counts. */
  lemma HandleRule(t: Tally, id: string, name: string, p: Part, outcome: Outcome)
    ensures var u := Handle(t, id, name, p, outcome);
            var skip := IsNonInvoice(NonInvoiceWords, name);
            var filed := !skip && outcome.Parsed?;
            Extends(t, u) && NamesAdded(t, u) &&
            |u.counts.nonInvoices| == |t.counts.nonInvoices| + (if skip then 1 else 0) &&
            TotalPdfs(u.counts) == TotalPdfs(t.counts) + (if filed then 1 else 0) &&
            |u.uploads| == |t.uploads| + (if skip then 0 else 1) &&
            |u.moves| <= |t.moves| + (if filed then 1 else 0) &&
            (forall i :: |t.moves| <= i < |u.moves| ==> u.moves[i] == id)
  {
    if !IsNonInvoice(NonInvoiceWords, name) && outcome.Parsed? {
      RecordedRule(t.counts, name, outcome.inv.rows);
    }
  }

  /** `u` extends `t`, and `v` extends `u`, adding names by the same rule. */
  lemma ExtendsTrans(t: Tally, u: Tally, v: Tally)
    requires Extends(t, u) && Extends(u, v) && NamesAdded(t, u) && NamesAdded(u, v)
    ensures Extends(t, v) && NamesAdded(t, v)
  {
    var c, d, e := t.counts.nonInvoices, u.counts.nonInvoices, v.counts.nonInvoices;
    forall i | |c| <= i < |e| ensures IsNonInvoice(NonInvoiceWords, e[i]) {
      if i < |d| { assert e[i] == d[i]; }
    }
    var s1, s2, s3 := t.counts.successfulNames, u.counts.successfulNames, v.counts.successfulNames;
    forall i | |s1| <= i < |s3| ensures !IsNonInvoice(NonInvoiceWords, s3[i]) {
      if i < |s2| { assert s3[i] == s2[i]; }
    }
    var f1, f2, f3 := t.counts.failureNames, u.counts.failureNames, v.counts.failureNames;
    forall i | |f1| <= i < |f3| ensures !IsNonInvoice(NonInvoiceWords, f3[i]) {
      if i < |f2| { assert f3[i] == f2[i]; }
    }
  }

  /**
   * Every attachment of a message lands in exactly one place: a
   * non-invoice is recorded and not uploaded; every other attachment is
   * uploaded once; "Total PDFs" grows by the invoices that parsed, and only
   * those can move the message.  The lists only grow, non-invoice names go
   * to the non-invoice list and only there.
   */
  lemma {:induction false} HandleAllCounts(t: Tally, id: string, date: string, sender: string, atts: seq<Part>, run: Runner)
    ensures var u := HandleAll(t, id, date, sender, atts, run);
            Extends(t, u) && NamesAdded(t, u) &&
            |u.counts.nonInvoices| == |t.counts.nonInvoices| + |Where(atts, Skipped(date, sender))| &&
            TotalPdfs(u.counts) == TotalPdfs(t.counts) + |Where(atts, Filed(date, sender, run))| &&
            |u.uploads| + |Where(atts, Skipped(date, sender))| == |t.uploads| + |atts| &&
            |u.moves| <= |t.moves| + |Where(atts, Filed(date, sender, run))| &&
            (forall i :: |t.moves| <= i < |u.moves| ==> u.moves[i] == id)
    decreases |atts|
  {
    if atts != [] {
      var n := |atts| - 1;
      var name := AttachmentFilename(date, sender, atts[n].filename);
      var u := HandleAll(t, id, date, sender, atts[..n], run);
      HandleAllCounts(t, id, date, sender, atts[..n], run);
      HandleRule(u, id, name, atts[n], run(atts[n], name));
      ExtendsTrans(t, u, HandleAll(t, id, date, sender, atts, run));
    }
  }

  /** One message; a message that could not be fetched changes nothing. */
  function HandleMessage(t: Tally, msg: Option<MailMessage>, read: DateReader, run: Runner): Tally {
    match msg
    case None => t
    case Some(m) =>
      var (sender, date) := DatesSender(m.headers, GmailFormats, read);
      HandleAll(t, m.id, date, sender, Attachments(m.parts), run)
  }

  /** The messages in order. */
  function HandleMessages(t: Tally, msgs: seq<Option<MailMessage>>, read: DateReader, run: Runner): Tally
    decreases |msgs|
  {
    if msgs == [] then t
    else HandleMessage(HandleMessages(t, msgs[..|msgs| - 1], read, run), msgs[|msgs| - 1], read, run)
  }

  /**
   * `Processor.process_message`: the sender and date come from the headers,
   * every attachment is named, a non-invoice is recorded and skipped, an
   * invoice is recorded, uploaded to its folder and, when complete, its
   * message moved; an invoice that raises is uploaded to the unprocessed
   * folder and not counted.
   */
  method ProcessMessage(stats: Statistics, outbox: Outbox, msg: Option<MailMessage>, read: DateReader, run: Runner)
    modifies stats, outbox
    ensures Tally(stats.Snapshot(), outbox.uploads, outbox.moves) ==
            HandleMessage(old(Tally(stats.Snapshot(), outbox.uploads, outbox.moves)), msg, read, run)
    ensures stats.emailsCount == old(stats.emailsCount)
  {
    if msg.None? {
      return;
    }
    var m := msg.value;
    var sender, date := GetEmailDatesSender(m.headers, GmailFormats, read);
    var atts := Attachments(m.parts);
    ghost var start := Tally(stats.Snapshot(), outbox.uploads, outbox.moves);
    var i := 0;
    while i < |atts|
      invariant 0 <= i <= |atts|
      invariant Tally(stats.Snapshot(), outbox.uploads, outbox.moves) == HandleAll(start, m.id, date, sender, atts[..i], run)
      invariant stats.emailsCount == old(stats.emailsCount)
    {
      var p := atts[i];
      HandleAllStep(start, m.id, date, sender, atts, i, run);
      var filename := AttachmentFilename(date, sender, p.filename);
      ProcessAttachment(stats, outbox, m.id, filename, p, run(p, filename));
      i := i + 1;
    }
    assert atts[..i] == atts;
  }

  /** The body of the attachment loop of `process_message`. */
  method ProcessAttachment(stats: Statistics, outbox: Outbox, id: string, filename: string, p: Part, outcome: Outcome)
    modifies stats, outbox
    ensures Tally(stats.Snapshot(), outbox.uploads, outbox.moves) ==
            Handle(old(Tally(stats.Snapshot(), outbox.uploads, outbox.moves)), id, filename, p, outcome)
    ensures stats.emailsCount == old(stats.emailsCount)
  {
    if IsNonInvoice(NonInvoiceWords, filename) {
      stats.AddNonInvoice(filename);
      return;
    }
    var r := ProcessInvoicedAttachment(stats, filename, outcome);
    if r.Ok? {
      var (folder, move) := r.value;
      if move {
        outbox.moves := outbox.moves + [id];
      }
      outbox.uploads := outbox.uploads + [Upload(filename, InvoiceSubfolder(folder), p.mimeType)];
    } else {
      outbox.uploads := outbox.uploads + [Upload(filename, UnprocessedFolder, p.mimeType)];
    }
  }

  /**
   * `Processor.process_invoices`: a fresh `Statistics` counting the
   * messages, and every message processed in order.
   */
  method ProcessInvoices(msgs: seq<Option<MailMessage>>, read: DateReader, run: Runner)
    returns (stats: Statistics, outbox: Outbox)
    ensures stats.emailsCount == |msgs|
    ensures Tally(stats.Snapshot(), outbox.uploads, outbox.moves) ==
            HandleMessages(Tally(NoCounts, [], []), msgs, read, run)
  {
    stats := new Statistics(|msgs|);
    outbox := new Outbox();
    var i := 0;
    while i < |msgs|
      invariant 0 <= i <= |msgs|
      invariant stats.emailsCount == |msgs|
      invariant Tally(stats.Snapshot(), outbox.uploads, outbox.moves) ==
                HandleMessages(Tally(NoCounts, [], []), msgs[..i], read, run)
    {
      assert msgs[..i + 1][..i] == msgs[..i] && msgs[..i + 1][i] == msgs[i];
      ProcessMessage(stats, outbox, msgs[i], read, run);
      i := i + 1;
    }
    assert msgs[..i] == msgs;
  }
}
