// src/google_api_functions.py: the older `process_invoices`, one loop over
// the messages and one over their attachments.  It differs from
// `Processor` in three ways the model keeps: ".pdf" is always appended to
// the stored name; once the parser has read an invoice the file is known
// by the parser's name; and an attachment that raises is counted as a
// failure.  A `debugging` run requests no upload and sends no label move.
// The message listing is pruned by `MailUtils.PruneByThreadId`, and the
// headers are read by `MailHeaders.GetEmailDatesSender` with the two Gmail
// formats, as in `GoogleServices`.

module GoogleApi {
  import opened Base
  import opened Frames
  import opened Procedures
  import opened Classifier
  import opened MailHeaders
  import opened GoogleServices

  /** `{date}_{sender}_{name}.pdf`, ".pdf" appended whatever the name ends with. */
  function StoredName(date: string, sender: string, filename: string): (r: string)
    ensures EndsWith(r, ".pdf")
    ensures |r| == |date| + |sender| + |filename| + 6
  {
    var r := date + "_" + sender + "_" + NormalizedName(filename) + ".pdf";
    assert r[|r| - 4..] == ".pdf";
    r
  }

  /**
   * The name differs from the one `Processor` stores exactly when the
   * normalized attachment name already ends in ".pdf", and then by a
   * second ".pdf".
   */
  lemma StoredNameRule(date: string, sender: string, filename: string)
    ensures EndsWith(NormalizedName(filename), ".pdf") ==>
              StoredName(date, sender, filename) == AttachmentFilename(date, sender, filename) + ".pdf"
    ensures !EndsWith(NormalizedName(filename), ".pdf") ==>
              StoredName(date, sender, filename) == AttachmentFilename(date, sender, filename)
    ensures StoredName(date, sender, filename) == AttachmentFilename(date, sender, filename) <==>
              !EndsWith(NormalizedName(filename), ".pdf")
  {
    var n := NormalizedName(filename);
    if EndsWith(n, ".pdf") {
      assert |StoredName(date, sender, filename)| == |AttachmentFilename(date, sender, filename)| + 4;
    }
  }

  /** The statistics the summary reports; the row lists are local to `process_invoices`. */
  class Statistics {
    var emailsCount: int
    var successes: seq<string>
    var fails: seq<string>
    var nonInvoices: seq<string>

    constructor(emailsCount: int)
      ensures this.emailsCount == emailsCount && successes == [] && fails == [] && nonInvoices == []
    {
      this.emailsCount := emailsCount;
      successes := [];
      fails := [];
      nonInvoices := [];
    }

    /** The statistics together with the success and failure row lists. */
    function Counted(successList: seq<seq<ChargeRecord>>, failList: seq<seq<ChargeRecord>>): Counts
      reads this
    {
      Counts(successList, failList, successes, fails, nonInvoices)
    }
  }

  /** An upload, unless the run is a debugging one. */
  function Send(uploads: seq<Upload>, u: Upload, debugging: bool): seq<Upload> {
    if debugging then uploads else uploads + [u]
  }

  /**
   * One attachment of message `id`, stored under `name`; the moves are the
   * ones queued in the Gmail batch.
   */
  function Handle(t: Tally, id: string, name: string, p: Part, outcome: Outcome, debugging: bool): Tally {
    if IsNonInvoice(NonInvoiceWords, name) then
      t.(counts := t.counts.(nonInvoices := t.counts.nonInvoices + [name]))
    else
      match outcome
      case Parsed(inv) =>
        var (folder, move) := Destination(inv);
        Tally(Recorded(t.counts, inv.name, inv.rows),
              Send(t.uploads, Upload(inv.name, InvoiceSubfolder(folder), p.mimeType), debugging),
              if move then t.moves + [id] else t.moves)
      case ParseRaised =>
        Tally(t.counts.(failureNames := t.counts.failureNames + [name]),
              Send(t.uploads, Upload(name, UnprocessedFolder, p.mimeType), debugging), t.moves)
      case MatchRaised(renamed) =>
        Tally(t.counts.(failureNames := t.counts.failureNames + [renamed]),
              Send(t.uploads, Upload(renamed, UnprocessedFolder, p.mimeType), debugging), t.moves)
  }

  /** The attachments `atts` of message `id`, in order. */
  function HandleAll(t: Tally, id: string, date: string, sender: string, atts: seq<Part>, run: Runner, debugging: bool): Tally
    decreases |atts|
  {
    if atts == [] then t
    else
      var n := |atts| - 1;
      var name := StoredName(date, sender, atts[n].filename);
      Handle(HandleAll(t, id, date, sender, atts[..n], run, debugging), id, name, atts[n], run(atts[n], name), debugging)
  }

  /** One more attachment. */
  lemma HandleAllStep(t: Tally, id: string, date: string, sender: string, atts: seq<Part>, i: nat, run: Runner, debugging: bool)
    requires i < |atts|
    ensures var name := StoredName(date, sender, atts[i].filename);
            HandleAll(t, id, date, sender, atts[..i + 1], run, debugging) ==
            Handle(HandleAll(t, id, date, sender, atts[..i], run, debugging), id, name, atts[i], run(atts[i], name), debugging)
  {
    assert atts[..i + 1][..i] == atts[..i] && atts[..i + 1][i] == atts[i];
  }

  /** The attachment is stored under a non-invoice name, so it is recorded and skipped. */
  function Ignored(date: string, sender: string): Part -> bool {
    (p: Part) => IsNonInvoice(NonInvoiceWords, StoredName(date, sender, p.filename))
  }

  /** Every list of `u` continues the same list of `t`, and the new non-invoice names are non-invoice names. */
  predicate Grows(t: Tally, u: Tally) {
    Extends(t, u) &&
    forall i :: |t.counts.nonInvoices| <= i < |u.counts.nonInvoices| ==>
      IsNonInvoice(NonInvoiceWords, u.counts.nonInvoices[i])
  }

  /** What one attachment does to the counts. */
  lemma HandleRule(t: Tally, id: string, name: string, p: Part, outcome: Outcome, debugging: bool)
    ensures var u := Handle(t, id, name, p, outcome, debugging);
            var skip := IsNonInvoice(NonInvoiceWords, name);
            Grows(t, u) &&
            |u.counts.nonInvoices| == |t.counts.nonInvoices| + (if skip then 1 else 0) &&
            TotalPdfs(u.counts) == TotalPdfs(t.counts) + (if skip then 0 else 1) &&
            |u.uploads| == |t.uploads| + (if skip || debugging then 0 else 1) &&
            |u.moves| <= |t.moves| + (if skip then 0 else 1) &&
            (forall i :: |t.moves| <= i < |u.moves| ==> u.moves[i] == id)
  {
    if !IsNonInvoice(NonInvoiceWords, name) && outcome.Parsed? {
      RecordedRule(t.counts, outcome.inv.name, outcome.inv.rows);
    }
  }

  /** Growing twice is growing. */
  lemma GrowsTrans(t: Tally, u: Tally, v: Tally)
    requires Grows(t, u) && Grows(u, v)
    ensures Grows(t, v)
  {
    var c, d, e := t.counts.nonInvoices, u.counts.nonInvoices, v.counts.nonInvoices;
    forall i | |c| <= i < |e| ensures IsNonInvoice(NonInvoiceWords, e[i]) {
      if i < |d| { assert e[i] == d[i]; }
    }
  }

  /**
   * Every attachment is counted once: a non-invoice in the non-invoice
   * list, every other one, whether it parsed or raised, in "Total PDFs"
   * and (outside a debugging run) among the uploads.  Only invoices move
   * the message, and only this message.
   */
  lemma {:induction false} HandleAllCounts(t: Tally, id: string, date: string, sender: string, atts: seq<Part>, run: Runner, debugging: bool)
    ensures var u := HandleAll(t, id, date, sender, atts, run, debugging);
            var skipped := |Where(atts, Ignored(date, sender))|;
            Grows(t, u) &&
            |u.counts.nonInvoices| == |t.counts.nonInvoices| + skipped &&
            TotalPdfs(u.counts) + skipped == TotalPdfs(t.counts) + |atts| &&
            |u.uploads| == |t.uploads| + (if debugging then 0 else |atts| - skipped) &&
            |u.moves| + skipped <= |t.moves| + |atts| &&
            (forall i :: |t.moves| <= i < |u.moves| ==> u.moves[i] == id)
    decreases |atts|
  {
    if atts != [] {
      var n := |atts| - 1;
      var name := StoredName(date, sender, atts[n].filename);
      var u := HandleAll(t, id, date, sender, atts[..n], run, debugging);
      HandleAllCounts(t, id, date, sender, atts[..n], run, debugging);
      HandleRule(u, id, name, atts[n], run(atts[n], name), debugging);
      GrowsTrans(t, u, HandleAll(t, id, date, sender, atts, run, debugging));
    }
  }

  /** One message; a message that could not be fetched changes nothing. */
  function HandleMessage(t: Tally, msg: Option<MailMessage>, read: DateReader, run: Runner, debugging: bool): Tally {
    match msg
    case None => t
    case Some(m) =>
      var (sender, date) := DatesSender(m.headers, GmailFormats, read);
      HandleAll(t, m.id, date, sender, Attachments(m.parts), run, debugging)
  }

  /** The messages in order. */
  function HandleMessages(t: Tally, msgs: seq<Option<MailMessage>>, read: DateReader, run: Runner, debugging: bool): Tally
    decreases |msgs|
  {
    if msgs == [] then t
    else HandleMessage(HandleMessages(t, msgs[..|msgs| - 1], read, run, debugging), msgs[|msgs| - 1], read, run, debugging)
  }

  /**
   * What a whole run records: the messages that could be fetched are
   * counted attachment by attachment, and the lists only grow.
   */
  lemma {:induction false} HandleMessagesGrow(t: Tally, msgs: seq<Option<MailMessage>>, read: DateReader, run: Runner, debugging: bool)
    ensures var u := HandleMessages(t, msgs, read, run, debugging);
            Grows(t, u) && (debugging ==> u.uploads == t.uploads)
    decreases |msgs|
  {
    if msgs != [] {
      var n := |msgs| - 1;
      var u := HandleMessages(t, msgs[..n], read, run, debugging);
      HandleMessagesGrow(t, msgs[..n], read, run, debugging);
      var v := HandleMessage(u, msgs[n], read, run, debugging);
      if msgs[n].Some? {
        var m := msgs[n].value;
        var (sender, date) := DatesSender(m.headers, GmailFormats, read);
        HandleAllCounts(u, m.id, date, sender, Attachments(m.parts), run, debugging);
        if debugging {
          assert |v.uploads| == |u.uploads| && u.uploads <= v.uploads;
        }
      }
      GrowsTrans(t, u, v);
    }
  }

  /**
   * The body of the attachment loop: record a non-invoice; otherwise take
   * the parser's name, record the matched rows and the invoice and file it;
   * an exception counts the file as a failure and sends it to the
   * unprocessed folder.
   */
  method ProcessAttachment(stats: Statistics, outbox: Outbox, lists: (seq<seq<ChargeRecord>>, seq<seq<ChargeRecord>>),
                           batch: seq<string>, id: string, filename: string, p: Part, outcome: Outcome, debugging: bool)
    returns (lists': (seq<seq<ChargeRecord>>, seq<seq<ChargeRecord>>), batch': seq<string>)
    modifies stats, outbox
    ensures Tally(stats.Counted(lists'.0, lists'.1), outbox.uploads, batch') ==
            Handle(Tally(old(stats.Counted(lists.0, lists.1)), old(outbox.uploads), batch), id, filename, p, outcome, debugging)
    ensures stats.emailsCount == old(stats.emailsCount) && outbox.moves == old(outbox.moves)
  {
    lists', batch' := lists, batch;
    if IsNonInvoice(NonInvoiceWords, filename) {
      stats.nonInvoices := stats.nonInvoices + [filename];
      return;
    }
    match outcome
    case Parsed(inv) =>
      var name := inv.name;
      var rows := inv.rows;
      var success := Where(rows, Matched);
      var failure := Where(rows, Unmatched);
      if rows != [] {
        lists' := (lists.0 + [success], lists.1 + [failure]);
      }
      var folder: string;
      if failure == [] {
        folder := inv.driveCompleted;
        stats.successes := stats.successes + [name];
        batch' := batch + [id];
      } else {
        stats.fails := stats.fails + [name];
        folder := inv.driveIncomplete;
      }
      if !debugging {
        outbox.uploads := outbox.uploads + [Upload(name, InvoiceSubfolder(folder), p.mimeType)];
      }
    case ParseRaised =>
      stats.fails := stats.fails + [filename];
      if !debugging {
        outbox.uploads := outbox.uploads + [Upload(filename, UnprocessedFolder, p.mimeType)];
      }
    case MatchRaised(renamed) =>
      stats.fails := stats.fails + [renamed];
      if !debugging {
        outbox.uploads := outbox.uploads + [Upload(renamed, UnprocessedFolder, p.mimeType)];
      }
  }

  /** The body of the message loop: the headers, then every attachment in order. */
  method ProcessMessage(stats: Statistics, outbox: Outbox, lists: (seq<seq<ChargeRecord>>, seq<seq<ChargeRecord>>),
                        batch: seq<string>, msg: Option<MailMessage>, read: DateReader, run: Runner, debugging: bool)
    returns (lists': (seq<seq<ChargeRecord>>, seq<seq<ChargeRecord>>), batch': seq<string>)
    modifies stats, outbox
    ensures Tally(stats.Counted(lists'.0, lists'.1), outbox.uploads, batch') ==
            HandleMessage(Tally(old(stats.Counted(lists.0, lists.1)), old(outbox.uploads), batch), msg, read, run, debugging)
    ensures stats.emailsCount == old(stats.emailsCount) && outbox.moves == old(outbox.moves)
  {
    lists', batch' := lists, batch;
    if msg.None? {
      return;
    }
    var m := msg.value;
    var sender, date := GetEmailDatesSender(m.headers, GmailFormats, read);
    var atts := Attachments(m.parts);
    ghost var start := Tally(stats.Counted(lists.0, lists.1), outbox.uploads, batch);
    var i := 0;
    while i < |atts|
      invariant 0 <= i <= |atts|
      invariant Tally(stats.Counted(lists'.0, lists'.1), outbox.uploads, batch') ==
                HandleAll(start, m.id, date, sender, atts[..i], run, debugging)
      invariant stats.emailsCount == old(stats.emailsCount) && outbox.moves == old(outbox.moves)
    {
      var p := atts[i];
      HandleAllStep(start, m.id, date, sender, atts, i, run, debugging);
      var filename := StoredName(date, sender, p.filename);
      lists', batch' := ProcessAttachment(stats, outbox, lists', batch', m.id, filename, p, run(p, filename), debugging);
      i := i + 1;
    }
    assert atts[..i] == atts;
  }

  /**
   * `process_invoices`: a fresh `Statistics` counting the messages, every
   * message processed in order, and the queued label moves sent at the end
   * unless the run is a debugging one.  Returns the statistics and the
   * success and failure row lists.
   */
  method ProcessInvoices(msgs: seq<Option<MailMessage>>, read: DateReader, run: Runner, debugging: bool)
    returns (stats: Statistics, outbox: Outbox, successList: seq<seq<ChargeRecord>>, failList: seq<seq<ChargeRecord>>)
    ensures stats.emailsCount == |msgs|
    ensures var t := HandleMessages(Tally(NoCounts, [], []), msgs, read, run, debugging);
            stats.Counted(successList, failList) == t.counts && outbox.uploads == t.uploads &&
            outbox.moves == (if debugging then [] else t.moves)
  {
    stats := new Statistics(|msgs|);
    outbox := new Outbox();
    var lists: (seq<seq<ChargeRecord>>, seq<seq<ChargeRecord>>) := ([], []);
    var batch: seq<string> := [];
    var i := 0;
    while i < |msgs|
      invariant 0 <= i <= |msgs|
      invariant stats.emailsCount == |msgs| && outbox.moves == []
      invariant Tally(stats.Counted(lists.0, lists.1), outbox.uploads, batch) ==
                HandleMessages(Tally(NoCounts, [], []), msgs[..i], read, run, debugging)
    {
      assert msgs[..i + 1][..i] == msgs[..i] && msgs[..i + 1][i] == msgs[i];
      lists, batch := ProcessMessage(stats, outbox, lists, batch, msgs[i], read, run, debugging);
      i := i + 1;
    }
    assert msgs[..i] == msgs;
    successList, failList := lists.0, lists.1;
    if !debugging {
      outbox.moves := batch;
    }
  }
}
