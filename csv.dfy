/** The CSV export (the full `/api/export/csv` handler of server/routes.ts):
    a header line and one line per exported email, lines separated by LF,
    every field in double quotes. The reader below follows section 2 of
    RFC 4180 (with LF as the record separator) and is the partner the
    writer is proved against. */
module Csv {
  import opened Wrappers
  import opened Schema
  import opened Text
  import Queries

  const Headers: seq<string> :=
    ["Subject", "Sender Name", "Sender Email", "Category", "Amount", "Status", "Received Date", "Labels"]

  /** Every `"` doubled, as rule 7 of section 2 of RFC 4180 asks. */
  function Escape(s: string): (r: string)
    ensures CountChar(r, '"') == 2 * CountChar(s, '"')
    ensures |r| == |s| + CountChar(s, '"')
    decreases |s|
  {
    if |s| == 0 then ""
    else
      CountCharAppend(EscapeChar(s[0]), Escape(s[1..]), '"');
      EscapeChar(s[0]) + Escape(s[1..])
  }

  /** One character as it appears inside a quoted field. */
  function EscapeChar(c: char): (r: string)
    ensures CountChar(r, '"') == if c == '"' then 2 else 0
    ensures |r| == if c == '"' then 2 else 1
  {
    if c == '"' then "\"\"" else [c]
  }

  /** A field wrapped in double quotes. */
  function Quote(s: string): string {
    "\"" + s + "\""
  }

  /** Text without a double quote is its own escape. */
  lemma {:induction false} EscapeQuoteFree(s: string)
    requires Free(s, '"')
    ensures Escape(s) == s
    decreases |s|
  {
    if |s| > 0 {
      EscapeQuoteFree(s[1..]);
      assert s == [s[0]] + s[1..];
    }
  }

  // ---------------------------------------------------------------------
  // Amounts as PostgreSQL prints `decimal(10, 2)`.

  /** The whole part, `.`, exactly two decimals: "12.50", "0.05", "0.00". */
  function RenderUnsigned(m: nat): (r: string)
    ensures |r| >= 4 && IsDigit(r[0])
  {
    NatToString(m / 100) + "." + [DigitChar(m % 100 / 10), DigitChar(m % 10)]
  }

  /** A leading `-` for negative amounts: "-12.50". */
  function RenderCents(c: int): (r: string)
    ensures |r| >= 4
  {
    if c < 0 then "-" + RenderUnsigned(-c) else RenderUnsigned(c)
  }

  function ParseUnsigned(t: string): Option<nat> {
    if |t| >= 4 && t[|t| - 3] == '.' && AllDigits(t[..|t| - 3]) && IsDigit(t[|t| - 2]) && IsDigit(t[|t| - 1])
    then Some(DigitsValue(t[..|t| - 3]) * 100 + DigitValue(t[|t| - 2]) * 10 + DigitValue(t[|t| - 1]))
    else None
  }

  /** Reads a rendered amount back. */
  function ParseCents(s: string): Option<int> {
    if |s| > 0 && s[0] == '-' then
      match ParseUnsigned(s[1..])
      case None => None
      case Some(m) => Some(-(m as int))
    else
      match ParseUnsigned(s)
      case None => None
      case Some(m) => Some(m)
  }

  lemma DecimalDigits(m: nat)
    ensures (m / 100) * 100 + (m % 100 / 10) * 10 + m % 10 == m
  {
  }

  lemma UnsignedRoundTrip(m: nat)
    ensures ParseUnsigned(RenderUnsigned(m)) == Some(m)
  {
    var w := NatToString(m / 100);
    var t := RenderUnsigned(m);
    assert |t| == |w| + 3 && t[|t| - 3] == '.';
    assert t[..|t| - 3] == w;
    NatToStringRoundTrip(m / 100);
    DigitRoundTrip(m % 100 / 10);
    DigitRoundTrip(m % 10);
    DecimalDigits(m);
  }

  lemma CentsRoundTrip(c: int)
    ensures ParseCents(RenderCents(c)) == Some(c)
  {
    var r := RenderCents(c);
    if c < 0 {
      UnsignedRoundTrip(-c);
      assert r[0] == '-' && r[1..] == RenderUnsigned(-c);
    } else {
      UnsignedRoundTrip(c);
      assert r[0] != '-';
    }
  }

  /** `${amount || ''}`: empty exactly when the amount is NULL ("0.00" is
      a non-empty string and so is kept). */
  function AmountText(a: Option<Cents>): (r: string)
    ensures r == "" <==> a.None?
    ensures a.Some? ==> ParseCents(r) == Some(a.value)
  {
    if a.None? then "" else CentsRoundTrip(a.value); RenderCents(a.value)
  }

  /** The label names joined with "; ". */
  function LabelsText(labels: seq<Label>): string {
    Join(seq(|labels|, i requires 0 <= i < |labels| => labels[i].name), "; ")
  }

  // ---------------------------------------------------------------------
  // Lines.

  /** The eight values a line carries, before quoting; `iso` renders a
      timestamp as `Date.prototype.toISOString` does. */
  function RowValues(e: EmailWithLabels, iso: Timestamp -> string): (r: seq<string>)
    ensures |r| == |Headers|
  {
    [e.email.subject, e.email.senderName, e.email.senderEmail, e.email.category,
     AmountText(e.email.amount), e.email.status, iso(e.email.receivedAt), LabelsText(e.labels)]
  }

  /** The fields as written: subject and sender name escaped, the other six
      only wrapped in quotes. */
  function RowFieldsAsWritten(e: EmailWithLabels, iso: Timestamp -> string): seq<string> {
    var v := RowValues(e, iso);
    [Quote(Escape(v[0])), Quote(Escape(v[1])), Quote(v[2]), Quote(v[3]),
     Quote(v[4]), Quote(v[5]), Quote(v[6]), Quote(v[7])]
  }

  /** Every field escaped and quoted. */
  function RowFields(e: EmailWithLabels, iso: Timestamp -> string): (r: seq<string>)
    ensures |r| == |Headers|
    ensures forall i :: 0 <= i < |r| ==> r[i] == Quote(Escape(RowValues(e, iso)[i]))
  {
    var v := RowValues(e, iso);
    seq(|v|, i requires 0 <= i < |v| => Quote(Escape(v[i])))
  }

  function RowAsWritten(e: EmailWithLabels, iso: Timestamp -> string): string {
    Join(RowFieldsAsWritten(e, iso), ",")
  }

  function Row(e: EmailWithLabels, iso: Timestamp -> string): string {
    Join(RowFields(e, iso), ",")
  }

  /** When the six unescaped values hold no double quote, the line as written
      is the corrected line. */
  lemma RowAsWrittenAgrees(e: EmailWithLabels, iso: Timestamp -> string)
    requires forall i :: 2 <= i < |Headers| ==> Free(RowValues(e, iso)[i], '"')
    ensures RowAsWritten(e, iso) == Row(e, iso)
  {
    RowFieldsAsWrittenAgree(e, iso);
  }

  lemma RowFieldsAsWrittenAgree(e: EmailWithLabels, iso: Timestamp -> string)
    requires forall i :: 2 <= i < |Headers| ==> Free(RowValues(e, iso)[i], '"')
    ensures RowFieldsAsWritten(e, iso) == RowFields(e, iso)
  {
    var v := RowValues(e, iso);
    forall i | 2 <= i < |Headers| ensures Escape(v[i]) == v[i] {
      EscapeQuoteFree(v[i]);
    }
  }

  /** Joins the fields of each line with commas and the lines with line feeds. */
  function JoinLines(lines: seq<seq<string>>): string {
    Join(seq(|lines|, k requires 0 <= k < |lines| => Join(lines[k], ",")), "\n")
  }

  /** The export as written: the bare header line, then one line per email. */
  function CsvAsWritten(rows: seq<EmailWithLabels>, iso: Timestamp -> string): string {
    JoinLines([Headers] + seq(|rows|, k requires 0 <= k < |rows| => RowFieldsAsWritten(rows[k], iso)))
  }

  /** When no email has a double quote in its six unescaped values, the
      export as written is the corrected export. */
  lemma CsvAsWrittenAgrees(rows: seq<EmailWithLabels>, iso: Timestamp -> string)
    requires forall k, i :: 0 <= k < |rows| && 2 <= i < |Headers| ==> Free(RowValues(rows[k], iso)[i], '"')
    ensures CsvAsWritten(rows, iso) == Csv(rows, iso)
  {
    forall k | 0 <= k < |rows| ensures RowFieldsAsWritten(rows[k], iso) == RowFields(rows[k], iso) {
      RowFieldsAsWrittenAgree(rows[k], iso);
    }
    assert seq(|rows|, k requires 0 <= k < |rows| => RowFieldsAsWritten(rows[k], iso))
           == seq(|rows|, k requires 0 <= k < |rows| => RowFields(rows[k], iso));
  }

  /** The export with every field escaped. */
  function Csv(rows: seq<EmailWithLabels>, iso: Timestamp -> string): string {
    JoinLines([Headers] + seq(|rows|, k requires 0 <= k < |rows| => RowFields(rows[k], iso)))
  }

  /** The export's query: at most 1000 emails, from the first, with the
      request's filters. */
  function ExportQuery(search: Option<string>, category: Option<string>,
                       dateFrom: Option<Timestamp>, dateTo: Option<Timestamp>): Queries.EmailQuery {
    Queries.EmailQuery(Some(Queries.Num(1000)), Some(Queries.Num(0)), search, category, dateFrom, dateTo)
  }

  /** The export's query never fails. */
  lemma ExportQuerySucceeds(emails: seq<Email>, labels: seq<Label>, attachments: seq<Attachment>,
                            links: seq<EmailLabel>, search: Option<string>, category: Option<string>,
                            dateFrom: Option<Timestamp>, dateTo: Option<Timestamp>)
    ensures Queries.ListEmails(emails, labels, attachments, links, ExportQuery(search, category, dateFrom, dateTo)).Ok?
  {
  }

  // ---------------------------------------------------------------------
  // Reading CSV back (section 2 of RFC 4180, LF between records).

  /** The rest of a quoted field after its opening quote: its value and what
      follows the closing quote. */
  function ParseQuotedBody(s: string): (r: Option<(string, string)>)
    ensures r.Some? ==> |r.value.1| < |s|
    decreases |s|
  {
    if |s| == 0 then None
    else if s[0] == '"' then
      if |s| > 1 && s[1] == '"' then
        match ParseQuotedBody(s[2..])
        case None => None
        case Some((v, rest)) => Some(("\"" + v, rest))
      else Some(("", s[1..]))
    else
      match ParseQuotedBody(s[1..])
      case None => None
      case Some((v, rest)) => Some(([s[0]] + v, rest))
  }

  /** An unquoted field: everything up to a comma, a line feed or the end. */
  function ParseUnquoted(s: string): (r: Option<(string, string)>)
    ensures r.Some? ==> |r.value.1| <= |s|
    decreases |s|
  {
    if |s| == 0 || s[0] == ',' || s[0] == '\n' then Some(("", s))
    else if s[0] == '"' then None
    else
      match ParseUnquoted(s[1..])
      case None => None
      case Some((v, rest)) => Some(([s[0]] + v, rest))
  }

  function ParseField(s: string): (r: Option<(string, string)>)
    ensures r.Some? ==> |r.value.1| <= |s|
  {
    if |s| > 0 && s[0] == '"' then ParseQuotedBody(s[1..]) else ParseUnquoted(s)
  }

  /** The fields of one record and what follows its terminating line feed
      (`None` for the rest when the record ends the text). */
  function ParseRecord(s: string): (r: Option<(seq<string>, Option<string>)>)
    ensures r.Some? && r.value.1.Some? ==> |r.value.1.value| < |s|
    decreases |s|
  {
    match ParseField(s)
    case None => None
    case Some((v, rest)) =>
      if |rest| == 0 then Some(([v], None))
      else if rest[0] == '\n' then Some(([v], Some(rest[1..])))
      else if rest[0] == ',' then
        match ParseRecord(rest[1..])
        case None => None
        case Some((vs, after)) => Some(([v] + vs, after))
      else None
  }

  /** All records of a text. */
  function ParseCsv(s: string): Option<seq<seq<string>>>
    decreases |s|
  {
    match ParseRecord(s)
    case None => None
    case Some((fields, None)) => Some([fields])
    case Some((fields, Some(rest))) =>
      match ParseCsv(rest)
      case None => None
      case Some(records) => Some([fields] + records)
  }

  /** What may follow a field: the end, a comma or a line feed. */
  predicate FieldEnd(rest: string) {
    |rest| == 0 || rest[0] == ',' || rest[0] == '\n'
  }

  /** `cell` is a correct encoding of `v`: quoted with quotes doubled, or
      bare when `v` holds no comma, line feed or quote. */
  predicate Encodes(cell: string, v: string) {
    cell == Quote(Escape(v)) || (cell == v && Free(v, ',') && Free(v, '\n') && Free(v, '"'))
  }

  /** A doubled quote inside a quoted field reads as one quote. */
  lemma QuotedBodyDoubledQuote(t: string, v: string, rest: string)
    requires ParseQuotedBody(t) == Some((v, rest))
    ensures ParseQuotedBody("\"\"" + t) == Some(("\"" + v, rest))
  {
    assert ("\"\"" + t)[2..] == t;
  }

  /** Any other character inside a quoted field reads as itself. */
  lemma QuotedBodyPlainChar(c: char, t: string, v: string, rest: string)
    requires c != '"' && ParseQuotedBody(t) == Some((v, rest))
    ensures ParseQuotedBody([c] + t) == Some(([c] + v, rest))
  {
    assert ([c] + t)[1..] == t;
  }

  /** Escaping a non-empty text and closing the field: the first
      character's escape comes in front of the rest's. */
  lemma EscapeFirst(v: string, rest: string)
    requires |v| > 0
    ensures Escape(v) + "\"" + rest == EscapeChar(v[0]) + (Escape(v[1..]) + "\"" + rest)
  {
    var p := EscapeChar(v[0]);
    var e := Escape(v[1..]);
    assert Escape(v) == p + e;
    AppendAssoc(p, e, "\"");
    AppendAssoc(p, e + "\"", rest);
  }


  lemma {:induction false} QuotedBodyRoundTrip(v: string, rest: string)
    requires |rest| == 0 || rest[0] != '"'
    ensures ParseQuotedBody(Escape(v) + "\"" + rest) == Some((v, rest))
    decreases |v|
  {
    var s := Escape(v) + "\"" + rest;
    if |v| == 0 {
      assert s == "\"" + rest;
      assert s[1..] == rest;
    } else {
      var t := Escape(v[1..]) + "\"" + rest;
      QuotedBodyRoundTrip(v[1..], rest);
      EscapeFirst(v, rest);
      if v[0] == '"' {
        QuotedBodyDoubledQuote(t, v[1..], rest);
        assert "\"" + v[1..] == v;
      } else {
        QuotedBodyPlainChar(v[0], t, v[1..], rest);
        assert [v[0]] + v[1..] == v;
      }
    }
  }

  lemma {:induction false} UnquotedRoundTrip(v: string, rest: string)
    requires Free(v, ',') && Free(v, '\n') && Free(v, '"') && FieldEnd(rest)
    ensures ParseUnquoted(v + rest) == Some((v, rest))
    decreases |v|
  {
    if |v| == 0 {
      assert v + rest == rest;
    } else {
      UnquotedRoundTrip(v[1..], rest);
      assert (v + rest)[1..] == v[1..] + rest;
      assert [v[0]] + v[1..] == v;
    }
  }

  /** A correctly encoded field reads back as its value, whatever follows. */
  lemma FieldRoundTrip(cell: string, v: string, rest: string)
    requires Encodes(cell, v) && FieldEnd(rest)
    ensures ParseField(cell + rest) == Some((v, rest))
  {
    if cell == Quote(Escape(v)) {
      QuotedBodyRoundTrip(v, rest);
      AppendAssoc("\"", Escape(v), "\"");
      AppendAssoc("\"", Escape(v) + "\"", rest);
      assert ("\"" + (Escape(v) + "\"" + rest))[1..] == Escape(v) + "\"" + rest;
    } else {
      UnquotedRoundTrip(v, rest);
      if |v| > 0 {
        assert v[0] != '"';
      }
    }
  }

  /** A line of correctly encoded fields reads back as its values. */
  lemma {:induction false} RecordRoundTrip(cells: seq<string>, vs: seq<string>, rest: string)
    requires |cells| == |vs| > 0
    requires forall i :: 0 <= i < |cells| ==> Encodes(cells[i], vs[i])
    requires |rest| == 0 || rest[0] == '\n'
    ensures ParseRecord(Join(cells, ",") + rest) == Some((vs, if |rest| == 0 then None else Some(rest[1..])))
    decreases |cells|
  {
    if |cells| == 1 {
      FieldRoundTrip(cells[0], vs[0], rest);
      assert vs == [vs[0]];
    } else {
      var tail := Join(cells[1..], ",") + rest;
      JoinFirst(cells, ",", rest);
      FieldRoundTrip(cells[0], vs[0], "," + tail);
      assert ("," + tail)[1..] == tail;
      RecordRoundTrip(cells[1..], vs[1..], rest);
      assert [vs[0]] + vs[1..] == vs;
    }
  }

  /** Several lines: the first, a line feed, then the others. */
  lemma JoinLinesFirst(lines: seq<seq<string>>)
    requires |lines| > 1
    ensures JoinLines(lines) == Join(lines[0], ",") + ("\n" + JoinLines(lines[1..]))
  {
    var text := seq(|lines|, k requires 0 <= k < |lines| => Join(lines[k], ","));
    var restText := seq(|lines| - 1, k requires 0 <= k < |lines| - 1 => Join(lines[1..][k], ","));
    assert text[1..] == restText;
    JoinFirst(text, "\n", "");
    assert Join(text, "\n") + "" == Join(text, "\n");
    assert Join(restText, "\n") + "" == Join(restText, "\n");
  }

  /** One line: its fields joined by commas. */
  lemma JoinLinesOne(lines: seq<seq<string>>)
    requires |lines| == 1
    ensures JoinLines(lines) == Join(lines[0], ",")
  {
    var text := seq(|lines|, k requires 0 <= k < |lines| => Join(lines[k], ","));
    assert Join(text, "\n") == text[0];
  }

  /** Every line has as many fields as its record, each encoding its value. */
  ghost predicate LinesEncode(lines: seq<seq<string>>, records: seq<seq<string>>) {
    && |lines| == |records|
    && (forall k :: 0 <= k < |lines| ==> |lines[k]| == |records[k]| > 0)
    && (forall k, i :: 0 <= k < |lines| && 0 <= i < |lines[k]| ==> Encodes(lines[k][i], records[k][i]))
  }

  lemma LinesEncodeTail(lines: seq<seq<string>>, records: seq<seq<string>>)
    requires LinesEncode(lines, records) && |lines| > 0
    ensures LinesEncode(lines[1..], records[1..])
    ensures forall i :: 0 <= i < |lines[0]| ==> Encodes(lines[0][i], records[0][i])
  {
    forall k, i | 0 <= k < |lines| - 1 && 0 <= i < |lines[1..][k]|
      ensures Encodes(lines[1..][k][i], records[1..][k][i])
    {
      assert lines[1..][k] == lines[k + 1] && records[1..][k] == records[k + 1];
    }
  }

  /** Lines of correctly encoded fields, joined by line feeds, read back as
      the records of their values. */
  lemma {:induction false} CsvRoundTrip(lines: seq<seq<string>>, records: seq<seq<string>>)
    requires |lines| > 0 && LinesEncode(lines, records)
    ensures ParseCsv(JoinLines(lines)) == Some(records)
    decreases |lines|
  {
    LinesEncodeTail(lines, records);
    if |lines| == 1 {
      RecordRoundTrip(lines[0], records[0], "");
      assert Join(lines[0], ",") + "" == Join(lines[0], ",");
      JoinLinesOne(lines);
      assert records == [records[0]];
    } else {
      var tail := JoinLines(lines[1..]);
      JoinLinesFirst(lines);
      RecordRoundTrip(lines[0], records[0], "\n" + tail);
      assert ("\n" + tail)[1..] == tail;
      CsvRoundTrip(lines[1..], records[1..]);
      ParseCsvNext(Join(lines[0], ",") + ("\n" + tail), records[0], tail, records[1..]);
      assert [records[0]] + records[1..] == records;
    }
  }

  /** A record ended by a line feed, then the records of what follows. */
  lemma ParseCsvNext(s: string, fields: seq<string>, rest: string, records: seq<seq<string>>)
    requires ParseRecord(s) == Some((fields, Some(rest)))
    requires ParseCsv(rest) == Some(records)
    ensures ParseCsv(s) == Some([fields] + records)
  {
  }

  /** A header name holds no comma, line feed or quote. */
  lemma HeaderNamePlain(i: int)
    requires 0 <= i < |Headers|
    ensures Free(Headers[i], ',') && Free(Headers[i], '\n') && Free(Headers[i], '"')
  {
  }

  /** The header's names hold no comma, line feed or quote, so the bare
      header line is a correct encoding. */
  lemma HeaderEncodes()
    ensures forall i :: 0 <= i < |Headers| ==> Encodes(Headers[i], Headers[i])
  {
    forall i | 0 <= i < |Headers| ensures Encodes(Headers[i], Headers[i]) {
      HeaderNamePlain(i);
    }
  }

  /** The export reads back as the header followed by one record per email,
      in list order, holding that email's eight values. */
  lemma CsvReadsBack(rows: seq<EmailWithLabels>, iso: Timestamp -> string)
    ensures ParseCsv(Csv(rows, iso)) == Some([Headers] + seq(|rows|, k requires 0 <= k < |rows| => RowValues(rows[k], iso)))
  {
    var lines := [Headers] + seq(|rows|, k requires 0 <= k < |rows| => RowFields(rows[k], iso));
    var records := [Headers] + seq(|rows|, k requires 0 <= k < |rows| => RowValues(rows[k], iso));
    HeaderEncodes();
    CsvRoundTrip(lines, records);
  }

  /** A quote left unescaped inside a quoted field ends the field early, so
      the field does not read back as its value (here a label list "a\"b"). */
  lemma UnescapedQuoteBreaksField()
    ensures ParseField(Quote("a\"b") + "\n") != Some(("a\"b", "\n"))
    ensures ParseField(Quote(Escape("a\"b")) + "\n") == Some(("a\"b", "\n"))
  {
    var s := Quote("a\"b") + "\n";
    assert s[1..] == "a\"b\"\n";
    assert "a\"b\"\n"[1..] == "\"b\"\n";
    assert "\"b\"\n"[1..] == "b\"\n";
    FieldRoundTrip(Quote(Escape("a\"b")), "a\"b", "\n");
  }
}
