// src/utils.py: `get_email_dates_sender`, the sender and the date of a
// message read off its headers.

module MailHeaders {
  import opened Base
  import opened SenderName

  /** A message header. */
  datatype Header = Header(name: string, value: string)

  /**
   * `dt.strptime(value, format).strftime("%Y-%m-%d")`, or None where
   * strptime raises; the calendar parsing itself is not modelled.
   */
  type DateReader = (string, string) -> Option<string>

  const UnknownSender := "unknown_sender"
  const DefaultDate := "1999-01-01"

  /**
   * The date a Date value gives under the formats tried in order, every
   * one of them, starting from `date`: the last format that parses wins.
   */
  function LastParse(value: string, formats: seq<string>, read: DateReader, date: string): string
    decreases |formats|
  {
    if formats == [] then date
    else
      match read(value, formats[|formats| - 1])
      case Some(d) => d
      case None => LastParse(value, formats[..|formats| - 1], read, date)
  }

  /** The value of the last From header, if any. */
  function LastFrom(headers: seq<Header>): Option<string>
    decreases |headers|
  {
    if headers == [] then None
    else
      var n := |headers| - 1;
      if headers[n].name == "From" then Some(headers[n].value) else LastFrom(headers[..n])
  }

  /** The sender as the loop leaves it: the last From header's, or "unknown_sender". */
  function SenderFrom(headers: seq<Header>): string
    decreases |headers|
  {
    if headers == [] then UnknownSender
    else
      var n := |headers| - 1;
      if headers[n].name == "From" then SenderOf(headers[n].value) else SenderFrom(headers[..n])
  }

  /** The date as the loop leaves it: the last parse of a Date header, or "1999-01-01". */
  function DateFrom(headers: seq<Header>, formats: seq<string>, read: DateReader): string
    decreases |headers|
  {
    if headers == [] then DefaultDate
    else
      var n := |headers| - 1;
      var before := DateFrom(headers[..n], formats, read);
      if headers[n].name == "Date" then LastParse(headers[n].value, formats, read, before) else before
  }

  /** Some format of `formats` parses `value`. */
  predicate AnyParse(value: string, formats: seq<string>, read: DateReader)
    decreases |formats|
  {
    formats != [] &&
    (read(value, formats[|formats| - 1]).Some? || AnyParse(value, formats[..|formats| - 1], read))
  }

  /** The Date header `h` parses under some format. */
  predicate Parses(h: Header, formats: seq<string>, read: DateReader) {
    h.name == "Date" && AnyParse(h.value, formats, read)
  }

  /** Some format parses exactly when one of them, at some position, does. */
  lemma {:induction false} AnyParseRule(value: string, formats: seq<string>, read: DateReader)
    ensures AnyParse(value, formats, read) <==> exists j :: 0 <= j < |formats| && read(value, formats[j]).Some?
    decreases |formats|
  {
    if formats != [] {
      var n := |formats| - 1;
      AnyParseRule(value, formats[..n], read);
      if AnyParse(value, formats[..n], read) {
        var j :| 0 <= j < n && read(value, formats[..n][j]).Some?;
        assert formats[..n][j] == formats[j];
      }
      if exists j :: 0 <= j < |formats| && read(value, formats[j]).Some? {
        var j :| 0 <= j < |formats| && read(value, formats[j]).Some?;
        if j < n { assert formats[..n][j] == formats[j]; }
      }
    }
  }

  /** When no format parses the value, the date is left as it was. */
  lemma {:induction false} LastParseNone(value: string, formats: seq<string>, read: DateReader, date: string)
    requires !AnyParse(value, formats, read)
    ensures LastParse(value, formats, read, date) == date
    decreases |formats|
  {
    if formats != [] {
      LastParseNone(value, formats[..|formats| - 1], read, date);
    }
  }

  /** Otherwise the last format that parses gives the date. */
  lemma {:induction false} LastParseLast(value: string, formats: seq<string>, read: DateReader, date: string, j: nat)
    requires j < |formats| && read(value, formats[j]).Some?
    requires forall j' :: j < j' < |formats| ==> read(value, formats[j']).None?
    ensures LastParse(value, formats, read, date) == read(value, formats[j]).value
    decreases |formats|
  {
    var n := |formats| - 1;
    if j < n {
      var init := formats[..n];
      assert init[j] == formats[j];
      forall j' | j < j' < n ensures read(value, init[j']).None? {
        assert init[j'] == formats[j'];
      }
      LastParseLast(value, init, read, date, j);
    }
  }

  /** Once some format parses, the starting date no longer matters. */
  lemma {:induction false} LastParseStart(value: string, formats: seq<string>, read: DateReader, d1: string, d2: string)
    requires AnyParse(value, formats, read)
    ensures LastParse(value, formats, read, d1) == LastParse(value, formats, read, d2)
    decreases |formats|
  {
    var n := |formats| - 1;
    if read(value, formats[n]).None? {
      LastParseStart(value, formats[..n], read, d1, d2);
    }
  }

  /** With no From header there is no From value and the sender stays "unknown_sender". */
  lemma {:induction false} LastFromNone(headers: seq<Header>)
    requires forall k :: 0 <= k < |headers| ==> headers[k].name != "From"
    ensures LastFrom(headers) == None && SenderFrom(headers) == UnknownSender
    decreases |headers|
  {
    if headers != [] {
      var n := |headers| - 1;
      var init := headers[..n];
      forall k | 0 <= k < n ensures init[k].name != "From" {
        assert init[k] == headers[k];
      }
      LastFromNone(init);
    }
  }

  /** Otherwise the last From header gives the From value. */
  lemma {:induction false} LastFromLast(headers: seq<Header>, k: nat)
    requires k < |headers| && headers[k].name == "From"
    requires forall k' :: k < k' < |headers| ==> headers[k'].name != "From"
    ensures LastFrom(headers) == Some(headers[k].value)
    decreases |headers|
  {
    var n := |headers| - 1;
    if k < n {
      var init := headers[..n];
      assert init[k] == headers[k];
      forall k' | k < k' < n ensures init[k'].name != "From" {
        assert init[k'] == headers[k'];
      }
      LastFromLast(init, k);
    }
  }

  /** The sender is the normalised last From value, or "unknown_sender" when there is none. */
  lemma {:induction false} SenderFromLast(headers: seq<Header>)
    ensures SenderFrom(headers) == match LastFrom(headers) case None => UnknownSender case Some(v) => SenderOf(v)
    decreases |headers|
  {
    if headers != [] {
      SenderFromLast(headers[..|headers| - 1]);
    }
  }

  /** No Date header parses: the date stays "1999-01-01". */
  lemma {:induction false} DateFromNone(headers: seq<Header>, formats: seq<string>, read: DateReader)
    requires forall k :: 0 <= k < |headers| ==> !Parses(headers[k], formats, read)
    ensures DateFrom(headers, formats, read) == DefaultDate
    decreases |headers|
  {
    if headers != [] {
      var n := |headers| - 1;
      var init := headers[..n];
      forall k | 0 <= k < n ensures !Parses(init[k], formats, read) {
        assert init[k] == headers[k];
      }
      DateFromNone(init, formats, read);
      if headers[n].name == "Date" {
        LastParseNone(headers[n].value, formats, read, DefaultDate);
      }
    }
  }

  /**
   * Otherwise the date is what the last parsing Date header gives under its
   * last parsing format.
   */
  lemma {:induction false} DateFromLast(headers: seq<Header>, formats: seq<string>, read: DateReader, k: nat)
    requires k < |headers| && Parses(headers[k], formats, read)
    requires forall k' :: k < k' < |headers| ==> !Parses(headers[k'], formats, read)
    ensures DateFrom(headers, formats, read) == LastParse(headers[k].value, formats, read, DefaultDate)
    decreases |headers|
  {
    var n := |headers| - 1;
    var init := headers[..n];
    var h := headers[n];
    var before := DateFrom(init, formats, read);
    if k < n {
      if h.name == "Date" {
        assert !AnyParse(h.value, formats, read);
        LastParseNone(h.value, formats, read, before);
      }
      assert init[k] == headers[k];
      forall k' | k < k' < n ensures !Parses(init[k'], formats, read) {
        assert init[k'] == headers[k'];
      }
      DateFromLast(init, formats, read, k);
    } else {
      LastParseStart(h.value, formats, read, before, DefaultDate);
    }
  }

  /** `(sender, date)` as `get_email_dates_sender` returns them. */
  function DatesSender(headers: seq<Header>, formats: seq<string>, read: DateReader): (string, string) {
    (SenderFrom(headers), DateFrom(headers, formats, read))
  }

  /**
   * `get_email_dates_sender(headers, date_formats)`: every format is tried
   * on every Date header, none stops the loop, and a value that does not
   * parse leaves the date alone.
   */
  method GetEmailDatesSender(headers: seq<Header>, formats: seq<string>, read: DateReader)
    returns (sender: string, date: string)
    ensures (sender, date) == DatesSender(headers, formats, read)
  {
    sender := UnknownSender;
    date := DefaultDate;
    var i := 0;
    while i < |headers|
      invariant 0 <= i <= |headers|
      invariant sender == SenderFrom(headers[..i])
      invariant date == DateFrom(headers[..i], formats, read)
    {
      var h := headers[i];
      HeaderStep(headers, i, formats, read);
      if h.name == "Date" {
        date := ReadDate(h.value, formats, read, date);
      }
      if h.name == "From" {
        sender := SenderOf(h.value);
      }
      i := i + 1;
    }
    assert headers[..i] == headers;
  }

  /** What one more header does to the sender and the date. */
  lemma HeaderStep(headers: seq<Header>, i: nat, formats: seq<string>, read: DateReader)
    requires i < |headers|
    ensures SenderFrom(headers[..i + 1]) ==
            if headers[i].name == "From" then SenderOf(headers[i].value) else SenderFrom(headers[..i])
    ensures DateFrom(headers[..i + 1], formats, read) ==
            if headers[i].name == "Date" then LastParse(headers[i].value, formats, read, DateFrom(headers[..i], formats, read))
            else DateFrom(headers[..i], formats, read)
  {
    assert headers[..i + 1][..i] == headers[..i] && headers[..i + 1][i] == headers[i];
  }

  /** The inner loop: every format is tried, and each that parses overwrites the date. */
  method ReadDate(value: string, formats: seq<string>, read: DateReader, start: string) returns (date: string)
    ensures date == LastParse(value, formats, read, start)
  {
    date := start;
    var j := 0;
    while j < |formats|
      invariant 0 <= j <= |formats|
      invariant date == LastParse(value, formats[..j], read, start)
    {
      assert formats[..j + 1][..j] == formats[..j] && formats[..j + 1][j] == formats[j];
      var parsed := read(value, formats[j]);
      if parsed.Some? {
        date := parsed.value;
      }
      j := j + 1;
    }
    assert formats[..j] == formats;
  }
}
