// src/gfuncs.py: the first version of the invoice run.  Its
// `get_email_dates_sender` takes the defaults from the caller, tries the
// one Gmail date format and raises on a Date header it cannot read, which
// ends the whole run.  `process_msg_invoices` filters attachments on the
// normalized name alone, with four non-invoice words, and stores the rest
// under `{date}_{sender}_{name}` with no extension added.
//
// As written, every invoice that parses then reads `parser.drive_dir`, an
// attribute no parser has, so it is counted as a failure and uploaded to
// the unprocessed folder (`FiledAsWritten`).  The run below uses the
// evident intent (`Filed`): the invoice goes to the parser's completed or
// incomplete folder according to its rows.

module GFuncs {
  import opened Base
  import opened Frames
  import opened Procedures
  import opened Classifier
  import opened SenderName
  import opened MailHeaders
  import opened GoogleServices

  // ---------------------------------------------------------------
  // get_email_dates_sender(headers, sender, date)
  // ---------------------------------------------------------------

  /** The sender: the last From header's, or the one the caller passed in. */
  function SenderAfter(headers: seq<Header>, sender: string): string {
    match LastFrom(headers)
    case None => sender
    case Some(v) => SenderOf(v)
  }

  /** The date: the last Date header's under the one Gmail format; one that does not parse raises. */
  function DateAfter(headers: seq<Header>, date: string, read: DateReader): Result<string>
    decreases |headers|
  {
    if headers == [] then Ok(date)
    else
      var n := |headers| - 1;
      var before := DateAfter(headers[..n], date, read);
      if before.Err? || headers[n].name != "Date" then before
      else
        match read(headers[n].value, GmailDate)
        case None => Err("time data does not match format")
        case Some(d) => Ok(d)
  }

  /** A Date header the one Gmail format cannot read. */
  predicate Unreadable(h: Header, read: DateReader) {
    h.name == "Date" && read(h.value, GmailDate).None?
  }

  /** The headers give both, or the call raises. */
  function OldDatesSender(headers: seq<Header>, sender: string, date: string, read: DateReader): Result<(string, string)> {
    match DateAfter(headers, date, read)
    case Err(e) => Err(e)
    case Ok(d) => Ok((SenderAfter(headers, sender), d))
  }

  /** The call raises exactly when some Date header cannot be read. */
  lemma {:induction false} DateAfterRaises(headers: seq<Header>, date: string, read: DateReader)
    ensures DateAfter(headers, date, read).Err? <==> exists k :: 0 <= k < |headers| && Unreadable(headers[k], read)
    decreases |headers|
  {
    if headers != [] {
      var n := |headers| - 1;
      var init := headers[..n];
      DateAfterRaises(init, date, read);
      if exists k :: 0 <= k < n && Unreadable(init[k], read) {
        var k :| 0 <= k < n && Unreadable(init[k], read);
        assert init[k] == headers[k];
      }
      if exists k :: 0 <= k < |headers| && Unreadable(headers[k], read) {
        var k :| 0 <= k < |headers| && Unreadable(headers[k], read);
        if k < n { assert init[k] == headers[k]; }
      }
    }
  }

  /**
   * When every Date header can be read, the date is the one the later
   * version gives with the single format `GMAIL_DATE`.
   */
  lemma {:induction false} DateAfterAgrees(headers: seq<Header>, read: DateReader)
    requires forall k :: 0 <= k < |headers| ==> !Unreadable(headers[k], read)
    ensures DateAfter(headers, DefaultDate, read) == Ok(DateFrom(headers, [GmailDate], read))
    decreases |headers|
  {
    if headers != [] {
      var n := |headers| - 1;
      var init := headers[..n];
      forall k | 0 <= k < n ensures !Unreadable(init[k], read) {
        assert init[k] == headers[k];
      }
      DateAfterAgrees(init, read);
      assert [GmailDate][..0] == [];
    }
  }

  /**
   * With the defaults `process_msg_invoices` passes in, the old reading
   * agrees with the later one on the single format whenever it does not
   * raise.
   */
  lemma OldDatesSenderAgrees(headers: seq<Header>, read: DateReader)
    requires forall k :: 0 <= k < |headers| ==> !Unreadable(headers[k], read)
    ensures OldDatesSender(headers, UnknownSender, DefaultDate, read) == Ok(DatesSender(headers, [GmailDate], read))
  {
    DateAfterAgrees(headers, read);
    SenderFromLast(headers);
  }

  /** Without a From or a Date header, the caller's defaults come back. */
  lemma {:induction false} OldDatesSenderDefaults(headers: seq<Header>, sender: string, date: string, read: DateReader)
    requires forall k :: 0 <= k < |headers| ==> headers[k].name != "From" && headers[k].name != "Date"
    ensures OldDatesSender(headers, sender, date, read) == Ok((sender, date))
    decreases |headers|
  {
    LastFromNone(headers);
    if headers != [] {
      var n := |headers| - 1;
      var init := headers[..n];
      forall k | 0 <= k < n ensures init[k].name != "From" && init[k].name != "Date" {
        assert init[k] == headers[k];
      }
      OldDatesSenderDefaults(init, sender, date, read);
    }
  }

  /** One more header. */
  lemma OldHeaderStep(headers: seq<Header>, i: nat, date: string, read: DateReader)
    requires i < |headers|
    ensures var h, init := headers[i], headers[..i];
            LastFrom(headers[..i + 1]) == (if h.name == "From" then Some(h.value) else LastFrom(init)) &&
            DateAfter(headers[..i + 1], date, read) ==
              (if DateAfter(init, date, read).Err? || h.name != "Date" then DateAfter(init, date, read)
               else match read(h.value, GmailDate)
                    case None => Err("time data does not match format")
                    case Some(d) => Ok(d))
  {
    assert headers[..i + 1][..i] == headers[..i] && headers[..i + 1][i] == headers[i];
  }

  /**
   * `get_email_dates_sender(headers, sender, date)`: the headers in order;
   * a Date header is read with `GMAIL_DATE` and raises when it does not
   * match, a From header gives the sender.
   */
  method GetEmailDatesSender(headers: seq<Header>, sender: string, date: string, read: DateReader)
    returns (r: Result<(string, string)>)
    ensures r == OldDatesSender(headers, sender, date, read)
  {
    var s, d := sender, date;
    var i := 0;
    while i < |headers|
      invariant 0 <= i <= |headers|
      invariant s == SenderAfter(headers[..i], sender)
      invariant DateAfter(headers[..i], date, read) == Ok(d)
    {
      var h := headers[i];
      OldHeaderStep(headers, i, date, read);
      if h.name == "Date" {
        var parsed := read(h.value, GmailDate);
        if parsed.None? {
          r := Err("time data does not match format");
          DateAfterRaisesLater(headers, i + 1, date, read);
          return;
        }
        d := parsed.value;
      }
      if h.name == "From" {
        s := SenderOf(h.value);
      }
      i := i + 1;
    }
    assert headers[..i] == headers;
    r := Ok((s, d));
  }

  /** Once a prefix raises, the whole raises the same. */
  lemma {:induction false} DateAfterRaisesLater(headers: seq<Header>, i: nat, date: string, read: DateReader)
    requires i <= |headers| && DateAfter(headers[..i], date, read).Err?
    ensures DateAfter(headers, date, read) == DateAfter(headers[..i], date, read)
    decreases |headers| - i
  {
    if i < |headers| {
      OldHeaderStep(headers, i, date, read);
      DateAfterRaisesLater(headers, i + 1, date, read);
    } else {
      assert headers[..i] == headers;
    }
  }

  // ---------------------------------------------------------------
  // process_msg_invoices
  // ---------------------------------------------------------------

  /** The statistics the summary reports. */
  class Statistics {
    var emailsCount: int
    var successes: seq<string>
    var fails: seq<string>
    var nonInvoices: seq<string>

    constructor()
      ensures emailsCount == 0 && successes == [] && fails == [] && nonInvoices == []
    {
      emailsCount := 0;
      successes := [];
      fails := [];
      nonInvoices := [];
    }
  }

  /** The success and failure frames, the statistics' lists, the uploads and the label moves. */
  datatype Ledger = Ledger(success: seq<ChargeRecord>, fail: seq<ChargeRecord>,
                           successes: seq<string>, fails: seq<string>, nonInvoices: seq<string>,
                           uploads: seq<Upload>, moves: seq<string>)

  const EmptyLedger := Ledger([], [], [], [], [], [], [])

  /** "Total PDFs" in the summary. */
  function Total(l: Ledger): nat {
    |l.successes| + |l.fails|
  }

  /** The attachment name `process_msg_invoices` stores, before the parser renames it. */
  function OldStoredName(date: string, sender: string, normalized: string): (r: string)
    ensures |r| >= |normalized| && r[|r| - |normalized|..] == normalized
  {
    var prefix := date + "_" + sender + "_";
    assert (prefix + normalized)[|prefix|..] == normalized;
    prefix + normalized
  }

  /**
   * An invoice that reached the parser, as the code is written: reading
   * `parser.drive_dir` raises once the parser has renamed the file, so
   * every outcome ends in the failure list and the unprocessed folder.
   */
  function FiledAsWritten(l: Ledger, filename: string, p: Part, outcome: Outcome): Ledger {
    var name := match outcome
                case Parsed(inv) => inv.name
                case ParseRaised => filename
                case MatchRaised(renamed) => renamed;
    l.(fails := l.fails + [name], uploads := l.uploads + [Upload(name, UnprocessedFolder, p.mimeType)])
  }

  /**
   * The same with the folder the parser stands for: matched rows join the
   * success frame; an invoice with no unmatched row is a success, any
   * other a failure whose unmatched rows join the failure frame; every
   * parsed invoice relabels its message; the file goes to the parser's
   * completed or incomplete folder.  An exception counts the file as a
   * failure and sends it to the unprocessed folder.  For a match that
   * raises this deliberately follows the later `Processor`: with only
   * `drive_dir` restored, `output_path` would already hold the parser's
   * folder when `match_animals` raises, and the file would go there.
   */
  function Filed(l: Ledger, id: string, filename: string, p: Part, outcome: Outcome): Ledger {
    match outcome
    case Parsed(inv) =>
      var bad := Where(inv.rows, Unmatched);
      var l1 := l.(success := l.success + Where(inv.rows, Matched), moves := l.moves + [id]);
      if bad == [] then
        l1.(successes := l.successes + [inv.name],
            uploads := l.uploads + [Upload(inv.name, InvoiceSubfolder(inv.driveCompleted), p.mimeType)])
      else
        l1.(fail := l.fail + bad, fails := l.fails + [inv.name],
            uploads := l.uploads + [Upload(inv.name, InvoiceSubfolder(inv.driveIncomplete), p.mimeType)])
    case ParseRaised =>
      l.(fails := l.fails + [filename], uploads := l.uploads + [Upload(filename, UnprocessedFolder, p.mimeType)])
    case MatchRaised(renamed) =>
      l.(fails := l.fails + [renamed], uploads := l.uploads + [Upload(renamed, UnprocessedFolder, p.mimeType)])
  }

  /**
   * As written, no invoice is ever a success, no row reaches a frame and
   * no message is relabelled, and the upload goes to the unprocessed
   * folder; with the folder restored, an invoice all of whose rows match
   * is a success filed under the parser's completed folder.
   */
  lemma DriveDirRaises(l: Ledger, id: string, filename: string, p: Part, outcome: Outcome)
    ensures var w := FiledAsWritten(l, filename, p, outcome);
            w.successes == l.successes && w.success == l.success && w.fail == l.fail && w.moves == l.moves &&
            |w.fails| == |l.fails| + 1 && w.uploads[|l.uploads|].folder == UnprocessedFolder
    ensures outcome.Parsed? && Complete(outcome.inv.rows) ==>
              var f := Filed(l, id, filename, p, outcome);
              f.successes == l.successes + [outcome.inv.name] && f.fails == l.fails &&
              f.uploads[|l.uploads|].folder == InvoiceSubfolder(outcome.inv.driveCompleted) &&
              FiledAsWritten(l, filename, p, outcome).successes != f.successes
  {
  }

  /**
   * With the folder restored, a parsed invoice is a success exactly when
   * all its rows match; its rows are split between the two frames; every
   * outcome counts the file once.  (A match that raises is routed to the
   * unprocessed folder, as `Filed` explains.)
   */
  lemma FiledRule(l: Ledger, id: string, filename: string, p: Part, outcome: Outcome)
    ensures var f := Filed(l, id, filename, p, outcome);
            Total(f) == Total(l) + 1 && f.nonInvoices == l.nonInvoices && |f.uploads| == |l.uploads| + 1 &&
            l.success <= f.success && l.fail <= f.fail && l.successes <= f.successes && l.fails <= f.fails &&
            l.uploads <= f.uploads && l.moves <= f.moves
    ensures outcome.Parsed? ==>
              var f := Filed(l, id, filename, p, outcome);
              var rows := outcome.inv.rows;
              ((forall i :: 0 <= i < |rows| ==> Matched(rows[i])) <==> f.successes == l.successes + [outcome.inv.name]) &&
              multiset(f.success[|l.success|..]) + multiset(f.fail[|l.fail|..]) == multiset(rows) &&
              f.moves == l.moves + [id]
    ensures !outcome.Parsed? ==> Filed(l, id, filename, p, outcome).successes == l.successes
  {
    if outcome.Parsed? {
      var f := Filed(l, id, filename, p, outcome);
      var rows := outcome.inv.rows;
      SplitRule(rows);
      assert f.success[|l.success|..] == Where(rows, Matched);
      if Where(rows, Unmatched) == [] {
        assert f.fail[|l.fail|..] == [];
      } else {
        assert f.fail[|l.fail|..] == Where(rows, Unmatched);
      }
    }
  }

  /** The attachment, by its normalized name, is one of the four non-invoice kinds. */
  predicate Skipped(p: Part) {
    IsAttachment(p) && IsNonInvoice(LegacyNonInvoiceWords, NormalizedName(p.filename))
  }

  /** The attachment reaches the parser. */
  predicate Parsing(p: Part) {
    IsAttachment(p) && !IsNonInvoice(LegacyNonInvoiceWords, NormalizedName(p.filename))
  }

  /**
   * One payload part: a part that is not an attachment is passed over; a
   * non-invoice is recorded under its normalized name, before the date and
   * sender are prefixed; any other is parsed and filed.
   */
  function HandlePart(l: Ledger, id: string, date: string, sender: string, p: Part, run: Runner): Ledger {
    if !IsAttachment(p) then l
    else
      var normalized := NormalizedName(p.filename);
      if IsNonInvoice(LegacyNonInvoiceWords, normalized) then l.(nonInvoices := l.nonInvoices + [normalized])
      else
        var filename := OldStoredName(date, sender, normalized);
        Filed(l, id, filename, p, run(p, filename))
  }

  /** The parts of message `id`, in order. */
  function HandleParts(l: Ledger, id: string, date: string, sender: string, parts: seq<Part>, run: Runner): Ledger
    decreases |parts|
  {
    if parts == [] then l
    else
      var n := |parts| - 1;
      HandlePart(HandleParts(l, id, date, sender, parts[..n], run), id, date, sender, parts[n], run)
  }

  /** One more part. */
  lemma HandlePartsStep(l: Ledger, id: string, date: string, sender: string, parts: seq<Part>, i: nat, run: Runner)
    requires i < |parts|
    ensures HandleParts(l, id, date, sender, parts[..i + 1], run) ==
            HandlePart(HandleParts(l, id, date, sender, parts[..i], run), id, date, sender, parts[i], run)
  {
    assert parts[..i + 1][..i] == parts[..i] && parts[..i + 1][i] == parts[i];
  }

  /** `u` continues every list of `l`, and its new non-invoice names are non-invoice names. */
  predicate Continues(l: Ledger, u: Ledger) {
    l.success <= u.success && l.fail <= u.fail && l.successes <= u.successes && l.fails <= u.fails &&
    l.nonInvoices <= u.nonInvoices && l.uploads <= u.uploads && l.moves <= u.moves &&
    forall i :: |l.nonInvoices| <= i < |u.nonInvoices| ==> IsNonInvoice(LegacyNonInvoiceWords, u.nonInvoices[i])
  }

  /** Continuing twice is continuing. */
  lemma ContinuesTrans(l: Ledger, u: Ledger, v: Ledger)
    requires Continues(l, u) && Continues(u, v)
    ensures Continues(l, v)
  {
    forall i | |l.nonInvoices| <= i < |v.nonInvoices| ensures IsNonInvoice(LegacyNonInvoiceWords, v.nonInvoices[i]) {
      if i < |u.nonInvoices| { assert v.nonInvoices[i] == u.nonInvoices[i]; }
    }
  }

  /** What one part does to the counts. */
  lemma HandlePartRule(l: Ledger, id: string, date: string, sender: string, p: Part, run: Runner)
    ensures var u := HandlePart(l, id, date, sender, p, run);
            Continues(l, u) &&
            |u.nonInvoices| == |l.nonInvoices| + (if Skipped(p) then 1 else 0) &&
            Total(u) == Total(l) + (if Parsing(p) then 1 else 0) &&
            |u.uploads| == |l.uploads| + (if Parsing(p) then 1 else 0)
  {
    if Parsing(p) {
      var filename := OldStoredName(date, sender, NormalizedName(p.filename));
      FiledRule(l, id, filename, p, run(p, filename));
    }
  }

  /**
   * Every attachment is counted once: a non-invoice in the non-invoice
   * list, every other one, parsed or not, in "Total PDFs" and among the
   * uploads; parts that are not attachments leave no trace.
   */
  lemma {:induction false} HandlePartsCounts(l: Ledger, id: string, date: string, sender: string, parts: seq<Part>, run: Runner)
    ensures var u := HandleParts(l, id, date, sender, parts, run);
            Continues(l, u) &&
            |u.nonInvoices| == |l.nonInvoices| + |Where(parts, Skipped)| &&
            Total(u) == Total(l) + |Where(parts, Parsing)| &&
            |u.uploads| == |l.uploads| + |Where(parts, Parsing)|
    decreases |parts|
  {
    if parts != [] {
      var n := |parts| - 1;
      var u := HandleParts(l, id, date, sender, parts[..n], run);
      HandlePartsCounts(l, id, date, sender, parts[..n], run);
      HandlePartRule(u, id, date, sender, parts[n], run);
      ContinuesTrans(l, u, HandleParts(l, id, date, sender, parts, run));
    }
  }

  /** The ledger and whether a message's headers raised, which stops the run. */
  datatype Progress = Progress(ledger: Ledger, raised: bool)

  /** The messages in order, until one raises. */
  function HandleMessages(l: Ledger, msgs: seq<MailMessage>, read: DateReader, run: Runner): Progress
    decreases |msgs|
  {
    if msgs == [] then Progress(l, false)
    else
      var n := |msgs| - 1;
      var before := HandleMessages(l, msgs[..n], read, run);
      if before.raised then before
      else
        var m := msgs[n];
        match OldDatesSender(m.headers, UnknownSender, DefaultDate, read)
        case Err(_) => Progress(before.ledger, true)
        case Ok((sender, date)) => Progress(HandleParts(before.ledger, m.id, date, sender, m.parts, run), false)
  }

  /** A run raises exactly when some message has a Date header the format cannot read. */
  lemma {:induction false} HandleMessagesRaises(l: Ledger, msgs: seq<MailMessage>, read: DateReader, run: Runner)
    ensures HandleMessages(l, msgs, read, run).raised <==>
            exists i, k :: 0 <= i < |msgs| && 0 <= k < |msgs[i].headers| && Unreadable(msgs[i].headers[k], read)
    decreases |msgs|
  {
    if msgs != [] {
      var n := |msgs| - 1;
      var init := msgs[..n];
      HandleMessagesRaises(l, init, read, run);
      DateAfterRaises(msgs[n].headers, DefaultDate, read);
      if exists i, k :: 0 <= i < n && 0 <= k < |init[i].headers| && Unreadable(init[i].headers[k], read) {
        var i, k :| 0 <= i < n && 0 <= k < |init[i].headers| && Unreadable(init[i].headers[k], read);
        assert init[i] == msgs[i];
      }
      if exists i, k :: 0 <= i < |msgs| && 0 <= k < |msgs[i].headers| && Unreadable(msgs[i].headers[k], read) {
        var i, k :| 0 <= i < |msgs| && 0 <= k < |msgs[i].headers| && Unreadable(msgs[i].headers[k], read);
        if i < n { assert init[i] == msgs[i]; }
      }
    }
  }

  /** A run, raised or not, only adds to the lists, and adds non-invoice names as non-invoices. */
  lemma {:induction false} HandleMessagesContinue(l: Ledger, msgs: seq<MailMessage>, read: DateReader, run: Runner)
    ensures Continues(l, HandleMessages(l, msgs, read, run).ledger)
    decreases |msgs|
  {
    if msgs != [] {
      var n := |msgs| - 1;
      var before := HandleMessages(l, msgs[..n], read, run);
      HandleMessagesContinue(l, msgs[..n], read, run);
      if !before.raised {
        var m := msgs[n];
        var r := OldDatesSender(m.headers, UnknownSender, DefaultDate, read);
        if r.Ok? {
          HandlePartsCounts(before.ledger, m.id, r.value.1, r.value.0, m.parts, run);
          ContinuesTrans(l, before.ledger, HandleMessages(l, msgs, read, run).ledger);
        }
      }
    }
  }

  /** The ledger the statistics, the frames and the outbox hold. */
  function Held(stats: Statistics, outbox: Outbox, success: seq<ChargeRecord>, fail: seq<ChargeRecord>): Ledger
    reads stats, outbox
  {
    Ledger(success, fail, stats.successes, stats.fails, stats.nonInvoices, outbox.uploads, outbox.moves)
  }

  /** The body of the part loop. */
  method ProcessPart(stats: Statistics, outbox: Outbox, success: seq<ChargeRecord>, fail: seq<ChargeRecord>,
                     id: string, date: string, sender: string, p: Part, run: Runner)
    returns (success': seq<ChargeRecord>, fail': seq<ChargeRecord>)
    modifies stats, outbox
    ensures Held(stats, outbox, success', fail') == HandlePart(old(Held(stats, outbox, success, fail)), id, date, sender, p, run)
    ensures stats.emailsCount == old(stats.emailsCount)
  {
    success', fail' := success, fail;
    if !IsAttachment(p) {
      return;
    }
    var normalized := NormalizedName(p.filename);
    if IsNonInvoice(LegacyNonInvoiceWords, normalized) {
      stats.nonInvoices := stats.nonInvoices + [normalized];
      return;
    }
    var filename := OldStoredName(date, sender, normalized);
    match run(p, filename)
    case Parsed(inv) =>
      var matched := Where(inv.rows, Matched);
      var unmatched := Where(inv.rows, Unmatched);
      success' := success + matched;
      var folder: string;
      if unmatched == [] {
        stats.successes := stats.successes + [inv.name];
        folder := inv.driveCompleted;
      } else {
        fail' := fail + unmatched;
        stats.fails := stats.fails + [inv.name];
        folder := inv.driveIncomplete;
      }
      outbox.moves := outbox.moves + [id];
      outbox.uploads := outbox.uploads + [Upload(inv.name, InvoiceSubfolder(folder), p.mimeType)];
    case ParseRaised =>
      stats.fails := stats.fails + [filename];
      outbox.uploads := outbox.uploads + [Upload(filename, UnprocessedFolder, p.mimeType)];
    case MatchRaised(renamed) =>
      stats.fails := stats.fails + [renamed];
      outbox.uploads := outbox.uploads + [Upload(renamed, UnprocessedFolder, p.mimeType)];
  }

  /** The parts of one message, in order. */
  method ProcessParts(stats: Statistics, outbox: Outbox, success: seq<ChargeRecord>, fail: seq<ChargeRecord>,
                      id: string, date: string, sender: string, parts: seq<Part>, run: Runner)
    returns (success': seq<ChargeRecord>, fail': seq<ChargeRecord>)
    modifies stats, outbox
    ensures Held(stats, outbox, success', fail') == HandleParts(old(Held(stats, outbox, success, fail)), id, date, sender, parts, run)
    ensures stats.emailsCount == old(stats.emailsCount)
  {
    success', fail' := success, fail;
    ghost var start := Held(stats, outbox, success, fail);
    var i := 0;
    while i < |parts|
      invariant 0 <= i <= |parts|
      invariant Held(stats, outbox, success', fail') == HandleParts(start, id, date, sender, parts[..i], run)
      invariant stats.emailsCount == old(stats.emailsCount)
    {
      HandlePartsStep(start, id, date, sender, parts, i, run);
      success', fail' := ProcessPart(stats, outbox, success', fail', id, date, sender, parts[i], run);
      i := i + 1;
    }
    assert parts[..i] == parts;
  }

  /**
   * `process_msg_invoices`: the statistics count the messages; each
   * message's headers are read with the defaults "unknown_sender" and
   * "1999-01-01" and its parts processed in order; a header that raises
   * ends the run with what was done so far.  Returns the statistics, the
   * two frames and whether the run raised.
   */
  method ProcessMsgInvoices(msgs: seq<MailMessage>, read: DateReader, run: Runner)
    returns (stats: Statistics, outbox: Outbox, success: seq<ChargeRecord>, fail: seq<ChargeRecord>, raised: bool)
    ensures stats.emailsCount == |msgs|
    ensures Progress(Held(stats, outbox, success, fail), raised) == HandleMessages(EmptyLedger, msgs, read, run)
  {
    stats := new Statistics();
    stats.emailsCount := |msgs|;
    outbox := new Outbox();
    success, fail := [], [];
    raised := false;
    var i := 0;
    while i < |msgs|
      invariant 0 <= i <= |msgs|
      invariant stats.emailsCount == |msgs|
      invariant Progress(Held(stats, outbox, success, fail), false) == HandleMessages(EmptyLedger, msgs[..i], read, run)
    {
      assert msgs[..i + 1][..i] == msgs[..i] && msgs[..i + 1][i] == msgs[i];
      var m := msgs[i];
      var r := GetEmailDatesSender(m.headers, UnknownSender, DefaultDate, read);
      if r.Err? {
        raised := true;
        RaisedStays(msgs, i + 1, read, run);
        return;
      }
      var (sender, date) := r.value;
      success, fail := ProcessParts(stats, outbox, success, fail, m.id, date, sender, m.parts, run);
      i := i + 1;
    }
    assert msgs[..i] == msgs;
  }

  /** Once a prefix of the messages raises, the run ends where it stopped. */
  lemma {:induction false} RaisedStays(msgs: seq<MailMessage>, i: nat, read: DateReader, run: Runner)
    requires i <= |msgs| && HandleMessages(EmptyLedger, msgs[..i], read, run).raised
    ensures HandleMessages(EmptyLedger, msgs, read, run) == HandleMessages(EmptyLedger, msgs[..i], read, run)
    decreases |msgs| - i
  {
    if i < |msgs| {
      assert msgs[..i + 1][..i] == msgs[..i];
      RaisedStays(msgs, i + 1, read, run);
    } else {
      assert msgs[..i] == msgs;
    }
  }
}
