/**
 The CSV export of invoices, and a reader of the format of section 2 of RFC 4180
 that gets back what was written.
 */
module InvoiceCsv {
  import opened Common
  import opened Numerals
  import opened Texts
  import opened TokenAmount

  const CR := '\r'
  const LF := '\n'
  const CRLF := "\r\n"

  // ----- fields ------------------------------------------------------------

  /** Null or undefined, a string, or a date or number with its text. */
  datatype FieldValue = Missing | Text(text: string) | Other(text: string)

  predicate FormulaStart(c: char) {
    c == '=' || c == '+' || c == '-' || c == '@' || c == '\t' || c == CR
  }

  predicate LooksLikeFormula(text: string) {
    text != "" && FormulaStart(text[0])
  }

  /** Only strings are made safe for spreadsheets; dates and numbers are not. */
  function Sanitise(text: string): string {
    if LooksLikeFormula(text) then "'" + text else text
  }

  function FieldText(v: FieldValue): string {
    match v
    case Missing => ""
    case Text(s) => Sanitise(s)
    case Other(s) => s
  }

  predicate Special(c: char) {
    c == '"' || c == ',' || c == CR || c == LF
  }

  predicate Plain(text: string) {
    forall i :: 0 <= i < |text| ==> !Special(text[i])
  }

  function Doubled(c: char): string {
    if c == '"' then ['"', '"'] else [c]
  }

  function DoubleQuotes(text: string): string {
    if text == "" then "" else Doubled(text[0]) + DoubleQuotes(text[1..])
  }

  function Quote(text: string): string {
    if Plain(text) then text else ['"'] + DoubleQuotes(text) + ['"']
  }

  function EscapeCsvField(v: FieldValue): string {
    if v.Missing? then "" else Quote(FieldText(v))
  }

  function Escaped(fields: seq<FieldValue>): (r: seq<string>)
    ensures |r| == |fields|
  {
    seq(|fields|, i requires 0 <= i < |fields| => EscapeCsvField(fields[i]))
  }

  function FieldTexts(fields: seq<FieldValue>): (r: seq<string>)
    ensures |r| == |fields|
  {
    seq(|fields|, i requires 0 <= i < |fields| => FieldText(fields[i]))
  }

  // ----- the export --------------------------------------------------------

  const CSV_COLUMNS := [
    "invoice_id", "merchant_address", "token", "amount_raw", "amount",
    "status", "reference", "due_date", "created_at", "updated_at"
  ]

  const DEFAULT_TOKEN_DECIMALS := 7

  datatype TokenMeta = TokenMeta(symbol: string, decimals: int)

  /** An entry of TOKEN_METADATA; decimals that are not an integer count as absent. */
  datatype ConfiguredToken = ConfiguredToken(symbol: Option<string>, decimals: Option<int>)

  /** Malformed metadata (None) falls back to the defaults. */
  function ResolveTokenMeta(metadata: Option<map<string, ConfiguredToken>>, token: string): TokenMeta {
    if metadata.Some? && token in metadata.value then
      var configured := metadata.value[token];
      TokenMeta(configured.symbol.GetOr(token), configured.decimals.GetOr(DEFAULT_TOKEN_DECIMALS))
    else TokenMeta(token, DEFAULT_TOKEN_DECIMALS)
  }

  /** The dates come with their texts; a due date that is not finite is no date. */
  datatype Invoice = Invoice(
    id: string, merchant: string, token: string, amount: int, status: string, reference: Option<string>,
    dueDate: FieldValue, createdAt: FieldValue, updatedAt: FieldValue)

  function IntText(n: int): string {
    if n < 0 then "-" + Digits(-n) else Digits(n)
  }

  function AmountText(invoice: Invoice, meta: TokenMeta): string {
    FormatTokenAmount(invoice.amount, meta.decimals) + " " + meta.symbol
  }

  function InvoiceFields(invoice: Invoice, meta: TokenMeta): (fields: seq<FieldValue>)
    ensures |fields| == |CSV_COLUMNS| == 10
  {
    [ Text(invoice.id),
      Text(invoice.merchant),
      Text(invoice.token),
      Text(IntText(invoice.amount)),
      Text(AmountText(invoice, meta)),
      Text(invoice.status),
      if invoice.reference.Some? then Text(invoice.reference.value) else Missing,
      invoice.dueDate,
      invoice.createdAt,
      invoice.updatedAt ]
  }

  function CsvRow(fields: seq<FieldValue>): string {
    Join(Escaped(fields), ',') + CRLF
  }

  function Header(): string {
    Join(CSV_COLUMNS, ',') + CRLF
  }

  function Rows(records: seq<seq<FieldValue>>): string {
    if records == [] then "" else CsvRow(records[0]) + Rows(records[1..])
  }

  lemma OneRow(fields: seq<FieldValue>)
    ensures Rows([fields]) == CsvRow(fields)
  {
    assert [fields][1..] == [];
    assert CsvRow(fields) + "" == CsvRow(fields);
  }

  lemma Regrouped(a: string, b: string, c: string)
    ensures a + (b + c) == (a + b) + c
  {
  }

  lemma {:induction false} RowsAppend(records: seq<seq<FieldValue>>, fields: seq<FieldValue>)
    ensures Rows(records + [fields]) == Rows(records) + CsvRow(fields)
    decreases records
  {
    if records == [] {
      assert records + [fields] == [fields];
      OneRow(fields);
    } else {
      RowsAppend(records[1..], fields);
      assert (records + [fields])[1..] == records[1..] + [fields];
      Regrouped(CsvRow(records[0]), Rows(records[1..]), CsvRow(fields));
    }
  }

  lemma BodyGrows(header: string, records: seq<seq<FieldValue>>, k: nat)
    requires k <= |records|
    ensures header + Rows(records[..0]) == header
    ensures k < |records| ==> header + Rows(records[..k]) + CsvRow(records[k]) == header + Rows(records[..k + 1])
  {
    if k < |records| {
      RowsAppend(records[..k], records[k]);
      assert records[..k] + [records[k]] == records[..k + 1];
    }
  }

  function FieldsWith(metadata: Option<map<string, ConfiguredToken>>): Invoice -> seq<FieldValue> {
    (invoice: Invoice) => InvoiceFields(invoice, ResolveTokenMeta(metadata, invoice.token))
  }

  function Records(fieldsOf: Invoice -> seq<FieldValue>, invoices: seq<Invoice>): (r: seq<seq<FieldValue>>)
    ensures |r| == |invoices|
    ensures forall i :: 0 <= i < |r| ==> r[i] == fieldsOf(invoices[i])
  {
    seq(|invoices|, i requires 0 <= i < |invoices| => fieldsOf(invoices[i]))
  }

  /**
   How an export ends: the whole file, what was written until the client went away, an error
   answer before any of it, or a response cut off.
   */
  datatype Download = Complete(body: string) | Abandoned(body: string) | ErrorAnswer | CutOff(body: string)

  function DownloadOf(header: string, records: seq<seq<FieldValue>>, fails: bool, goneAfter: nat): Download {
    if goneAfter < |records| then Abandoned(header + Rows(records[..goneAfter]))
    else if !fails then Complete(header + Rows(records))
    else if records == [] then ErrorAnswer
    else CutOff(header + Rows(records))
  }

  /**
   Streams the invoices the database cursor gives before it ends or fails; the client may go
   away after some rows. The header goes out with the first write.
   */
  method StreamCsv(
      header: string, fieldsOf: Invoice -> seq<FieldValue>, invoices: seq<Invoice>, fails: bool, goneAfter: nat)
    returns (r: Download)
    ensures r == DownloadOf(header, Records(fieldsOf, invoices), fails, goneAfter)
  {
    var body, started, k := "", false, 0;
    ghost var records := Records(fieldsOf, invoices);
    while k < |invoices|
      invariant 0 <= k <= |invoices| && k <= goneAfter
      invariant started <==> k > 0
      invariant body == if started then header + Rows(records[..k]) else ""
    {
      if k >= goneAfter {
        break;
      }
      if !started {
        started := true;
        body := header;
      }
      BodyGrows(header, records, k);
      body := body + CsvRow(fieldsOf(invoices[k]));
      k := k + 1;
    }
    assert k == |invoices| ==> records[..k] == records;
    if k == |invoices| && fails {
      return if started then CutOff(body) else ErrorAnswer;
    }
    BodyGrows(header, records, 0);
    if !started {
      body := header;
    }
    return if k < |invoices| then Abandoned(body) else Complete(body);
  }

  method ExportCsv(invoices: seq<Invoice>, fails: bool, goneAfter: nat, metadata: Option<map<string, ConfiguredToken>>)
    returns (r: Download)
    ensures r == DownloadOf(Header(), Records(FieldsWith(metadata), invoices), fails, goneAfter)
  {
    r := StreamCsv(Header(), FieldsWith(metadata), invoices, fails, goneAfter);
  }

  // ----- a reader of RFC 4180 ----------------------------------------------

  datatype Taken = Taken(field: string, rest: string)
  datatype TakenRecord = TakenRecord(fields: seq<string>, rest: string)

  /** non-escaped: the text up to the next comma, quote or line break. */
  function ReadPlain(s: string): (r: Taken)
    ensures |r.rest| <= |s|
  {
    if s == "" || Special(s[0]) then Taken("", s)
    else
      var tail := ReadPlain(s[1..]);
      Taken([s[0]] + tail.field, tail.rest)
  }

  /** escaped, after its first quote: two quotes stand for one, and one ends the field. */
  function ReadQuoted(s: string): (r: Option<Taken>)
    ensures r.Some? ==> |r.value.rest| < |s|
  {
    if s == "" then None
    else if s[0] != '"' then Prepend(s[0], ReadQuoted(s[1..]))
    else if |s| > 1 && s[1] == '"' then Prepend('"', ReadQuoted(s[2..]))
    else Some(Taken("", s[1..]))
  }

  function Prepend(c: char, r: Option<Taken>): Option<Taken> {
    if r.Some? then Some(Taken([c] + r.value.field, r.value.rest)) else None
  }

  function ReadField(s: string): (r: Option<Taken>)
    ensures r.Some? ==> |r.value.rest| <= |s|
  {
    if s != "" && s[0] == '"' then ReadQuoted(s[1..]) else Some(ReadPlain(s))
  }

  /** Fields between commas, up to a line break or the end of the file. */
  function ReadRecord(s: string): (r: Option<TakenRecord>)
    ensures r.Some? && s != "" ==> |r.value.rest| < |s|
    decreases |s|
  {
    var first := ReadField(s);
    if first.None? then None
    else
      var field, rest := first.value.field, first.value.rest;
      if rest == "" then Some(TakenRecord([field], ""))
      else if rest[0] == ',' then
        var others := ReadRecord(rest[1..]);
        if others.None? then None else Some(TakenRecord([field] + others.value.fields, others.value.rest))
      else if |rest| > 1 && rest[0] == CR && rest[1] == LF then Some(TakenRecord([field], rest[2..]))
      else None
  }

  function ReadFile(s: string): Option<seq<seq<string>>>
    decreases |s|
  {
    if s == "" then Some([])
    else
      var first := ReadRecord(s);
      if first.None? then None
      else
        var others := ReadFile(first.value.rest);
        if others.None? then None else Some([first.value.fields] + others.value)
  }

  // ----- what is written can be read back ----------------------------------

  lemma QuotedStep(c: char, tail: string)
    ensures ReadQuoted(Doubled(c) + tail) == Prepend(c, ReadQuoted(tail))
  {
    if c == '"' {
      assert (['"', '"'] + tail)[2..] == tail;
    } else {
      assert ([c] + tail)[1..] == tail;
    }
  }

  lemma QuotedEnd(rest: string)
    requires rest != "" && rest[0] != '"'
    ensures ReadQuoted(['"'] + rest) == Some(Taken("", rest))
  {
    assert (['"'] + rest)[1..] == rest;
  }

  lemma {:induction false} QuotedReadBack(text: string, rest: string)
    requires rest != "" && rest[0] != '"'
    ensures ReadQuoted(DoubleQuotes(text) + (['"'] + rest)) == Some(Taken(text, rest))
    decreases text
  {
    var end := ['"'] + rest;
    if text == "" {
      assert DoubleQuotes(text) + end == end;
      QuotedEnd(rest);
    } else {
      var c, tail := text[0], DoubleQuotes(text[1..]);
      QuotedReadBack(text[1..], rest);
      assert Doubled(c) + tail + end == Doubled(c) + (tail + end);
      QuotedStep(c, tail + end);
      assert [c] + text[1..] == text;
    }
  }

  lemma {:induction false} PlainReadBack(text: string, rest: string)
    requires Plain(text) && rest != "" && Special(rest[0])
    ensures ReadPlain(text + rest) == Taken(text, rest)
    decreases text
  {
    if text == "" {
      assert text + rest == rest;
    } else {
      PlainReadBack(text[1..], rest);
      assert (text + rest)[1..] == text[1..] + rest;
      assert [text[0]] + text[1..] == text;
    }
  }

  predicate EndsField(rest: string) {
    rest != "" && (rest[0] == ',' || rest[0] == CR)
  }

  lemma PlainFieldReadBack(text: string, rest: string)
    requires EndsField(rest) && Plain(text)
    ensures ReadField(text + rest) == Some(Taken(text, rest))
  {
    PlainReadBack(text, rest);
    assert (text + rest)[0] == if text == "" then rest[0] else text[0];
  }

  lemma QuotedFieldReadBack(text: string, rest: string)
    requires EndsField(rest)
    ensures ReadField(['"'] + DoubleQuotes(text) + ['"'] + rest) == Some(Taken(text, rest))
  {
    QuotedReadBack(text, rest);
    Regrouped3(['"'], DoubleQuotes(text), ['"'], rest);
    ReadOpened(DoubleQuotes(text) + (['"'] + rest));
  }

  lemma Regrouped3(a: string, b: string, c: string, d: string)
    ensures a + b + c + d == a + (b + (c + d))
  {
  }

  lemma ReadOpened(body: string)
    ensures ReadField(['"'] + body) == ReadQuoted(body)
  {
    assert (['"'] + body)[1..] == body;
  }

  lemma FieldReadBack(text: string, rest: string)
    requires EndsField(rest)
    ensures ReadField(Quote(text) + rest) == Some(Taken(text, rest))
  {
    if Plain(text) {
      PlainFieldReadBack(text, rest);
    } else {
      QuotedFieldReadBack(text, rest);
    }
  }

  lemma FirstField(first: string, others: string, end: string)
    ensures first + [','] + others + end == first + ([','] + (others + end))
    ensures ([','] + (others + end))[1..] == others + end
  {
  }

  /** One record read back, from texts and the parts they were written as. */
  lemma {:induction false} RecordReadBack(texts: seq<string>, parts: seq<string>, rest: string)
    requires |texts| == |parts| > 0
    requires forall i :: 0 <= i < |parts| ==> parts[i] == Quote(texts[i])
    ensures ReadRecord(Join(parts, ',') + (CRLF + rest)) == Some(TakenRecord(texts, rest))
    decreases texts
  {
    var end := CRLF + rest;
    if |texts| == 1 {
      FieldReadBack(texts[0], end);
      assert end[2..] == rest;
      assert [texts[0]] == texts;
    } else {
      var tail := Join(parts[1..], ',') + end;
      RecordReadBack(texts[1..], parts[1..], rest);
      FieldReadBack(texts[0], [','] + tail);
      FirstField(Quote(texts[0]), Join(parts[1..], ','), end);
      assert [texts[0]] + texts[1..] == texts;
    }
  }

  lemma RowReadBack(fields: seq<FieldValue>, rest: string)
    requires fields != []
    ensures ReadRecord(CsvRow(fields) + rest) == Some(TakenRecord(FieldTexts(fields), rest))
  {
    assert CsvRow(fields) + rest == Join(Escaped(fields), ',') + (CRLF + rest);
    RecordReadBack(FieldTexts(fields), Escaped(fields), rest);
  }

  function AllTexts(records: seq<seq<FieldValue>>): (r: seq<seq<string>>)
    ensures |r| == |records|
  {
    seq(|records|, i requires 0 <= i < |records| => FieldTexts(records[i]))
  }

  lemma {:induction false} RowsReadBack(records: seq<seq<FieldValue>>)
    requires forall i :: 0 <= i < |records| ==> records[i] != []
    ensures ReadFile(Rows(records)) == Some(AllTexts(records))
    decreases records
  {
    if records != [] {
      var rest := Rows(records[1..]);
      RowsReadBack(records[1..]);
      RowReadBack(records[0], rest);
      assert CsvRow(records[0]) + rest != "";
      assert [FieldTexts(records[0])] + AllTexts(records[1..]) == AllTexts(records);
    }
  }

  lemma ColumnsPlain()
    ensures forall i :: 0 <= i < |CSV_COLUMNS| ==> Plain(CSV_COLUMNS[i])
  {
  }

  lemma FileReadBack(columns: seq<string>, records: seq<seq<FieldValue>>)
    requires columns != [] && forall i :: 0 <= i < |columns| ==> Plain(columns[i])
    requires forall i :: 0 <= i < |records| ==> records[i] != []
    ensures ReadFile(Join(columns, ',') + CRLF + Rows(records)) == Some([columns] + AllTexts(records))
  {
    var rows := Rows(records);
    var file := Join(columns, ',') + CRLF + rows;
    RecordReadBack(columns, columns, rows);
    assert file == Join(columns, ',') + (CRLF + rows);
    RowsReadBack(records);
  }

  /**
   Reading the exported text gives the header and, for every invoice, exactly ten fields: the
   sanitised texts of its values, whatever commas, quotes and line breaks they hold.
   */
  lemma ExportReadsBack(invoices: seq<Invoice>, metadata: Option<map<string, ConfiguredToken>>)
    ensures
      var records := Records(FieldsWith(metadata), invoices);
      && ReadFile(Header() + Rows(records)) == Some([CSV_COLUMNS] + AllTexts(records))
      && forall i :: 0 <= i < |invoices| ==>
           AllTexts(records)[i] == FieldTexts(InvoiceFields(invoices[i], ResolveTokenMeta(metadata, invoices[i].token)))
  {
    ColumnsPlain();
    FileReadBack(CSV_COLUMNS, Records(FieldsWith(metadata), invoices));
  }

  // ----- formulas ----------------------------------------------------------

  /** No string field is written so that a spreadsheet would take it for a formula. */
  lemma NoFormula(v: FieldValue)
    requires v.Text?
    ensures !LooksLikeFormula(FieldText(v))
  {
  }

  /** Sanitising forgets whether the apostrophe was there before, and nothing else. */
  lemma SanitiseForgets(a: string, b: string)
    ensures Sanitise(a) == Sanitise(b) <==>
            a == b || (LooksLikeFormula(a) && b == "'" + a) || (LooksLikeFormula(b) && a == "'" + b)
  {
    if LooksLikeFormula(a) && LooksLikeFormula(b) && "'" + a == "'" + b {
      assert ("'" + a)[1..] == a && ("'" + b)[1..] == b;
    }
  }

  /** The printed amount and its unit; exactly the negative ones are written as text with an apostrophe. */
  lemma AmountField(invoice: Invoice, meta: TokenMeta)
    requires meta.decimals >= 0
    ensures FieldText(InvoiceFields(invoice, meta)[4]) ==
            (if invoice.amount < 0 then "'" else "") + AmountText(invoice, meta)
  {
    var text := FormatTokenAmount(invoice.amount, meta.decimals);
    AmountStart(invoice.amount, meta.decimals);
    assert (text + " " + meta.symbol)[0] == text[0];
  }

  lemma AmountStart(value: int, decimals: int)
    requires decimals >= 0
    ensures
      var text := FormatTokenAmount(value, decimals);
      text != "" && (if value < 0 then text[0] == '-' else IsDigit(text[0]))
  {
    var digits := AmountDigits(value, decimals);
    AmountParts(digits, value, decimals);
  }

  // ----- columns -----------------------------------------------------------

  /** In the file as it is read, this text stands in the row under the heading. */
  ghost predicate Under(file: seq<seq<string>>, row: nat, heading: string, text: string)
    requires 0 < row < |file|
  {
    && heading in file[0]
    && forall c :: 0 <= c < |file[0]| && file[0][c] == heading ==> c < |file[row]| && file[row][c] == text
  }

  /** A string as a cell shows it: with an apostrophe before what a spreadsheet would compute. */
  predicate Shown(text: string, s: string) {
    text == if s != "" && s[0] in "=+-@\t\r" then "'" + s else s
  }

  lemma ShownExact(text: string, s: string)
    ensures Shown(text, s) <==> text == Sanitise(s)
  {
  }

  ghost predicate StringUnder(file: seq<seq<string>>, row: nat, heading: string, s: string)
    requires 0 < row < |file|
  {
    exists text :: Shown(text, s) && Under(file, row, heading, text)
  }

  /** The amount in whole units is written with a minus, and so an apostrophe, exactly if it is negative. */
  function RawAmount(n: int): string {
    if n >= 0 then Digits(n) else "'-" + Digits(-n)
  }

  /** Under the first five headings. */
  ghost predicate FirstShow(file: seq<seq<string>>, row: nat, invoice: Invoice, amount: string)
    requires 0 < row < |file|
  {
    && StringUnder(file, row, "invoice_id", invoice.id)
    && StringUnder(file, row, "merchant_address", invoice.merchant)
    && StringUnder(file, row, "token", invoice.token)
    && Under(file, row, "amount_raw", RawAmount(invoice.amount))
    && StringUnder(file, row, "amount", amount)
  }

  /** Under the last five; a date is written as it is, and one that is missing as nothing. */
  ghost predicate LastShow(file: seq<seq<string>>, row: nat, invoice: Invoice)
    requires 0 < row < |file|
  {
    && StringUnder(file, row, "status", invoice.status)
    && StringUnder(file, row, "reference", invoice.reference.GetOr(""))
    && (!invoice.dueDate.Text? ==> Under(file, row, "due_date", DateText(invoice.dueDate)))
    && (!invoice.createdAt.Text? ==> Under(file, row, "created_at", DateText(invoice.createdAt)))
    && (!invoice.updatedAt.Text? ==> Under(file, row, "updated_at", DateText(invoice.updatedAt)))
  }

  function DateText(date: FieldValue): string {
    if date.Other? then date.text else ""
  }

  lemma ColumnsApart(file: seq<seq<string>>, row: nat, c: nat)
    requires 0 < row < |file| && file[0] == CSV_COLUMNS && |file[row]| == 10 && c < 10
    ensures Under(file, row, CSV_COLUMNS[c], file[row][c])
  {
    assert CSV_COLUMNS[c] in CSV_COLUMNS;
    forall d | 0 <= d < 10 && CSV_COLUMNS[d] == CSV_COLUMNS[c]
      ensures d == c
    {
      HeadingsDiffer(c, d);
    }
  }

  lemma HeadingsDiffer(c: nat, d: nat)
    requires c < 10 && d < 10 && CSV_COLUMNS[c] == CSV_COLUMNS[d]
    ensures c == d
  {
  }

  lemma TextColumn(file: seq<seq<string>>, row: nat, c: nat, heading: string, text: string)
    requires 0 < row < |file| && file[0] == CSV_COLUMNS && |file[row]| == 10 && c < 10
    requires CSV_COLUMNS[c] == heading && file[row][c] == text
    ensures Under(file, row, heading, text)
  {
    ColumnsApart(file, row, c);
  }

  lemma StringColumn(file: seq<seq<string>>, row: nat, c: nat, heading: string, s: string)
    requires 0 < row < |file| && file[0] == CSV_COLUMNS && |file[row]| == 10 && c < 10
    requires CSV_COLUMNS[c] == heading && file[row][c] == Sanitise(s)
    ensures StringUnder(file, row, heading, s)
  {
    ColumnsApart(file, row, c);
    ShownExact(file[row][c], s);
  }

  lemma FirstTexts(invoice: Invoice, meta: TokenMeta)
    ensures
      var texts := FieldTexts(InvoiceFields(invoice, meta));
      && |texts| == 10 && texts[0] == Sanitise(invoice.id) && texts[1] == Sanitise(invoice.merchant)
      && texts[2] == Sanitise(invoice.token) && texts[3] == Sanitise(IntText(invoice.amount))
      && texts[4] == Sanitise(AmountText(invoice, meta))
  {
  }

  lemma LastTexts(invoice: Invoice, meta: TokenMeta)
    ensures
      var texts := FieldTexts(InvoiceFields(invoice, meta));
      && |texts| == 10 && texts[5] == Sanitise(invoice.status) && texts[6] == Sanitise(invoice.reference.GetOr(""))
      && texts[7] == FieldText(invoice.dueDate) && texts[8] == FieldText(invoice.createdAt)
      && texts[9] == FieldText(invoice.updatedAt)
  {
  }

  lemma FirstColumns(file: seq<seq<string>>, row: nat, invoice: Invoice, meta: TokenMeta)
    requires 0 < row < |file| && file[0] == CSV_COLUMNS
    requires file[row] == FieldTexts(InvoiceFields(invoice, meta))
    ensures FirstShow(file, row, invoice, FormatTokenAmount(invoice.amount, meta.decimals) + " " + meta.symbol)
  {
    FirstTexts(invoice, meta);
    StringColumn(file, row, 0, "invoice_id", invoice.id);
    StringColumn(file, row, 1, "merchant_address", invoice.merchant);
    StringColumn(file, row, 2, "token", invoice.token);
    RawAmountText(invoice.amount);
    TextColumn(file, row, 3, "amount_raw", RawAmount(invoice.amount));
    StringColumn(file, row, 4, "amount", AmountText(invoice, meta));
  }

  lemma LastColumns(file: seq<seq<string>>, row: nat, invoice: Invoice, meta: TokenMeta)
    requires 0 < row < |file| && file[0] == CSV_COLUMNS
    requires file[row] == FieldTexts(InvoiceFields(invoice, meta))
    ensures LastShow(file, row, invoice)
  {
    LastTexts(invoice, meta);
    StringColumn(file, row, 5, "status", invoice.status);
    StringColumn(file, row, 6, "reference", invoice.reference.GetOr(""));
    TextColumn(file, row, 7, "due_date", FieldText(invoice.dueDate));
    TextColumn(file, row, 8, "created_at", FieldText(invoice.createdAt));
    TextColumn(file, row, 9, "updated_at", FieldText(invoice.updatedAt));
  }

  /** The unit and the decimals a token is shown with: its own if they are configured, else its name and seven. */
  predicate UnitOf(metadata: Option<map<string, ConfiguredToken>>, token: string, meta: TokenMeta) {
    if metadata.None? || token !in metadata.value then meta == TokenMeta(token, 7)
    else
      var configured := metadata.value[token];
      && (configured.symbol == None ==> meta.symbol == token)
      && (configured.decimals == None ==> meta.decimals == 7)
      && (configured.symbol.Some? ==> configured.symbol == Some(meta.symbol))
      && (configured.decimals.Some? ==> configured.decimals == Some(meta.decimals))
  }

  lemma UnitExact(metadata: Option<map<string, ConfiguredToken>>, token: string)
    ensures UnitOf(metadata, token, ResolveTokenMeta(metadata, token))
  {
  }

  /** Row i + 1 of the exported file, as it is read, shows invoice i, every value under its heading. */
  lemma ExportShows(
      invoices: seq<Invoice>, metadata: Option<map<string, ConfiguredToken>>, i: nat, file: seq<seq<string>>,
      meta: TokenMeta)
    requires i < |invoices| && ReadFile(Header() + Rows(Records(FieldsWith(metadata), invoices))) == Some(file)
    requires UnitOf(metadata, invoices[i].token, meta)
    ensures
      var amount := FormatTokenAmount(invoices[i].amount, meta.decimals) + " " + meta.symbol;
      && |file| == |invoices| + 1
      && FirstShow(file, i + 1, invoices[i], amount) && LastShow(file, i + 1, invoices[i])
  {
    ExportReadsBack(invoices, metadata);
    UnitExact(metadata, invoices[i].token);
    OneUnit(metadata, invoices[i].token, meta, ResolveTokenMeta(metadata, invoices[i].token));
    FirstColumns(file, i + 1, invoices[i], meta);
    LastColumns(file, i + 1, invoices[i], meta);
  }

  lemma OneUnit(metadata: Option<map<string, ConfiguredToken>>, token: string, a: TokenMeta, b: TokenMeta)
    requires UnitOf(metadata, token, a) && UnitOf(metadata, token, b)
    ensures a == b
  {
  }

  lemma RawAmountText(n: int)
    ensures Sanitise(IntText(n)) == RawAmount(n)
  {
    if n >= 0 {
      assert IsDigit(Digits(n)[0]);
    }
  }

  // ----- how an export ends ------------------------------------------------

  /** The text of a file that began to be written. */
  function BodyOf(r: Download): Option<string> {
    match r
    case Complete(body) => Some(body)
    case Abandoned(body) => Some(body)
    case CutOff(body) => Some(body)
    case ErrorAnswer => None
  }

  /**
   What arrived reads as the rows of the first invoices, up to where the client went away. It is
   complete exactly if the client stayed and the database gave all of them; otherwise the client
   gets an error instead exactly if it stayed and there was no row to write before the failure.
   */
  lemma DownloadReads(records: seq<seq<FieldValue>>, fails: bool, goneAfter: nat)
    requires forall i :: 0 <= i < |records| ==> records[i] != []
    ensures
      var r := DownloadOf(Header(), records, fails, goneAfter);
      var n := if goneAfter < |records| then goneAfter else |records|;
      && (BodyOf(r).Some? ==> ReadFile(BodyOf(r).value) == Some([CSV_COLUMNS] + AllTexts(records[..n])))
      && (r.Abandoned? <==> n < |records|) && (r.Complete? <==> n == |records| && !fails)
      && (r.ErrorAnswer? <==> fails && |records| == 0) && (r.CutOff? <==> n == |records| > 0 && fails)
  {
    var n := if goneAfter < |records| then goneAfter else |records|;
    ColumnsPlain();
    FileReadBack(CSV_COLUMNS, records[..n]);
    assert records[..|records|] == records;
  }
}
