/** The statement layouts the importer accepts, and the rows it makes of a file. */
module TransactionImport {
  import opened Wrappers
  import opened Text
  import opened Numerals
  import opened Calendar
  import opened Csv
  import opened ImportCells
  import StabilityEngine

  const CANONICAL_HEADERS: Record := ["date", "description", "amount", "type"]
  const DATE_ALIASES: seq<string> := ["date", "transaction date", "value date", "posting date"]
  const DESCRIPTION_ALIASES: seq<string> := ["description", "narration", "particulars", "details"]
  const MAX_ROWS := 500

  datatype ImportError = BadCsv(error: CsvError) | EmptyCsv | DuplicateColumns | MissingColumns | NoRows | TooManyRows

  // ----- headers -----

  function NormalizeHeader(header: string, index: nat): string {
    Lower(Trim(if index == 0 && header != "" && header[0] == '\U{FEFF}' then header[1..] else header))
  }

  function Headers(record: Record): seq<string> {
    seq(|record|, i requires 0 <= i < |record| => NormalizeHeader(record[i], i))
  }

  function IndexOf(headers: seq<string>, header: string): (r: Option<nat>)
    ensures r.Some? ==> r.value < |headers| && headers[r.value] == header && header !in headers[..r.value]
    ensures r.None? ==> header !in headers
  {
    if headers == [] then None
    else if headers[0] == header then Some(0)
    else
      var rest := IndexOf(headers[1..], header);
      assert rest.Some? ==> headers[..rest.value + 1] == [headers[0]] + headers[1..][..rest.value];
      if rest.Some? then Some(rest.value + 1) else None
  }

  /** The column of the first alias that names one. */
  function FindHeaderIndex(headers: seq<string>, aliases: seq<string>): Option<nat> {
    if aliases == [] then None
    else
      var first := IndexOf(headers, aliases[0]);
      if first.Some? then first else FindHeaderIndex(headers, aliases[1..])
  }

  predicate HasAll(headers: seq<string>, wanted: seq<string>) {
    forall i | 0 <= i < |wanted| :: wanted[i] in headers
  }

  predicate HasDuplicate(headers: seq<string>) {
    exists i, j | 0 <= i < j < |headers| :: headers[i] == headers[j] && headers[j] != ""
  }

  // ----- the debit and credit layout -----

  /** The canonical layout wins over the debit and credit one. */
  predicate IsDebitCredit(headers: seq<string>) {
    && !HasAll(headers, CANONICAL_HEADERS)
    && FindHeaderIndex(headers, DATE_ALIASES).Some? && FindHeaderIndex(headers, DESCRIPTION_ALIASES).Some?
    && "debit" in headers && "credit" in headers
  }

  datatype Columns = Columns(date: nat, description: nat, debit: nat, credit: nat)

  function ColumnsOf(headers: seq<string>): Columns
    requires IsDebitCredit(headers)
  {
    Columns(FindHeaderIndex(headers, DATE_ALIASES).value, FindHeaderIndex(headers, DESCRIPTION_ALIASES).value,
            IndexOf(headers, "debit").value, IndexOf(headers, "credit").value)
  }

  /** A missing cell of a short record reads as empty. */
  function Cell(record: Record, index: nat): string {
    if index < |record| then record[index] else ""
  }

  predicate CreditOnly(r: Record, c: Columns) {
    AmountPresent(Cell(r, c.credit)) && !AmountPresent(Cell(r, c.debit))
  }

  predicate DebitOnly(r: Record, c: Columns) {
    AmountPresent(Cell(r, c.debit)) && !AmountPresent(Cell(r, c.credit))
  }

  function AmountAndType(r: Record, c: Columns): (string, string) {
    if CreditOnly(r, c) then (Trim(Cell(r, c.credit)), "credit")
    else if DebitOnly(r, c) then (Trim(Cell(r, c.debit)), "debit")
    else ("", "")
  }

  function Translate(r: Record, c: Columns): Record {
    [ToIsoDate(Cell(r, c.date)), Cell(r, c.description), AmountAndType(r, c).0, AmountAndType(r, c).1]
  }

  function TranslateAll(rs: seq<Record>, c: Columns): seq<Record> {
    Map(Translator(c), rs)
  }

  function Translator(c: Columns): Record -> Record {
    r => Translate(r, c)
  }

  const HEADER_LINE := "date" + "," + ("description" + "," + ("amount" + "," + "type"))

  lemma WordIsPlain(s: string)
    requires IsWord(s)
    ensures CsvEscape(s) == s
  {
  }

  lemma JoinFour(a: string, b: string, c: string, d: string, separator: string)
    ensures Join([a, b, c, d], separator) == a + separator + (b + separator + (c + separator + d))
  {
    assert [a, b, c, d][1..] == [b, c, d] && [b, c, d][1..] == [c, d] && [c, d][1..] == [d];
    assert Join([c, d], separator) == c + separator + d;
    assert Join([b, c, d], separator) == b + separator + (c + separator + d);
  }

  lemma PrintedHeader()
    ensures PrintRecord(CANONICAL_HEADERS) == HEADER_LINE
  {
    forall i | 0 <= i < 4
      ensures CsvEscape(CANONICAL_HEADERS[i]) == CANONICAL_HEADERS[i]
    {
      WordIsPlain(CANONICAL_HEADERS[i]);
    }
    assert EscapeAll(CANONICAL_HEADERS) == CANONICAL_HEADERS;
    JoinFour("date", "description", "amount", "type", ",");
  }

  lemma PrintAllOneMore(first: Record, rs: seq<Record>, r: Record)
    ensures PrintAll([first] + (rs + [r])) == PrintAll([first] + rs) + [PrintRecord(r)]
  {
    assert [first] + (rs + [r]) == [first] + rs + [r];
  }

  method TranslateRecord(record: Record, c: Columns) returns (line: Record)
    ensures line == Translate(record, c)
  {
    var credit, debit := Cell(record, c.credit), Cell(record, c.debit);
    var creditFilled, debitFilled := AmountPresent(credit), AmountPresent(debit);
    var amount, kind := "", "";
    if creditFilled && !debitFilled {
      amount, kind := Trim(credit), "credit";
    } else if debitFilled && !creditFilled {
      amount, kind := Trim(debit), "debit";
    }
    assert AmountAndType(record, c) == (amount, kind);
    line := [ToIsoDate(Cell(record, c.date)), Cell(record, c.description), amount, kind];
  }

  /** The lines of a translated statement, one by one. */
  method DebitCreditToCanonicalCsv(records: seq<Record>) returns (csv: string)
    requires records != [] && IsDebitCredit(Headers(records[0]))
    ensures csv == Print([CANONICAL_HEADERS] + TranslateAll(records[1..], ColumnsOf(Headers(records[0]))))
  {
    var c := ColumnsOf(Headers(records[0]));
    var lines := TranslatedLines(records[1..], c);
    csv := Join(lines, "\n");
  }

  lemma FirstLine(c: Columns)
    ensures PrintAll([CANONICAL_HEADERS] + TranslateAll([], c)) == [HEADER_LINE]
  {
    PrintedHeader();
    assert [CANONICAL_HEADERS] + TranslateAll([], c) == [CANONICAL_HEADERS];
  }

  lemma TranslateOneMore(rest: seq<Record>, c: Columns, i: nat)
    requires i < |rest|
    ensures TranslateAll(rest[..i + 1], c) == TranslateAll(rest[..i], c) + [Translate(rest[i], c)]
  {
    MapOfPrefix(Translator(c), rest, i);
  }

  lemma NextLine(rest: seq<Record>, c: Columns, i: nat)
    requires i < |rest|
    ensures PrintAll([CANONICAL_HEADERS] + TranslateAll(rest[..i + 1], c))
            == PrintAll([CANONICAL_HEADERS] + TranslateAll(rest[..i], c)) + [PrintRecord(Translate(rest[i], c))]
  {
    TranslateOneMore(rest, c, i);
    PrintAllOneMore(CANONICAL_HEADERS, TranslateAll(rest[..i], c), Translate(rest[i], c));
  }

  method TranslatedLines(rest: seq<Record>, c: Columns) returns (lines: seq<string>)
    ensures lines == PrintAll([CANONICAL_HEADERS] + TranslateAll(rest, c))
  {
    lines := [HEADER_LINE];
    FirstLine(c);
    assert rest[..0] == [];
    for i := 0 to |rest|
      invariant lines == PrintAll([CANONICAL_HEADERS] + TranslateAll(rest[..i], c))
    {
      var line := TranslateRecord(rest[i], c);
      NextLine(rest, c, i);
      lines := lines + [PrintRecord(line)];
    }
    assert rest[..|rest|] == rest;
  }

  // ----- the canonical form of a file -----

  function CanonicalRecords(records: seq<Record>): Result<seq<Record>, ImportError> {
    if records == [] then Err(EmptyCsv)
    else if HasAll(Headers(records[0]), CANONICAL_HEADERS) then Ok(records)
    else if IsDebitCredit(Headers(records[0]))
        then Ok([CANONICAL_HEADERS] + TranslateAll(records[1..], ColumnsOf(Headers(records[0]))))
    else Err(MissingColumns)
  }

  function CanonicalCsv(csv: string): Result<string, ImportError> {
    match Parse(csv)
    case Err(e) => Err(BadCsv(e))
    case Ok(records) =>
      match CanonicalRecords(records)
      case Err(e) => Err(e)
      case Ok(canonical) => Ok(Print(canonical))
  }

  method ToCanonicalImportCsv(csv: string) returns (r: Result<string, ImportError>)
    ensures r == CanonicalCsv(csv)
  {
    var parsed := ParseCsvRecords(csv);
    if parsed.Err? { return Err(BadCsv(parsed.error)); }
    var records := parsed.value;
    if records == [] { return Err(EmptyCsv); }
    var headers := Headers(records[0]);
    if HasAll(headers, CANONICAL_HEADERS) {
      r := Ok(Print(records));
    } else if IsDebitCredit(headers) {
      var text := DebitCreditToCanonicalCsv(records);
      r := Ok(text);
    } else {
      r := Err(MissingColumns);
    }
  }

  lemma TranslatedRecordsAreFilled(rs: seq<Record>, c: Columns)
    ensures forall i | 0 <= i < |rs| :: |TranslateAll(rs, c)[i]| > 0
  {
    forall i | 0 <= i < |rs| ensures |TranslateAll(rs, c)[i]| > 0 { MapAt(Translator(c), rs, i); }
  }

  lemma ReadRecordsAreFilled(csv: string)
    requires Parse(csv).Ok?
    ensures forall i | 0 <= i < |Parse(csv).value| :: |Parse(csv).value[i]| > 0
  {
    ParsedRecordsAreFilled(csv);
    assert forall i | 0 <= i < |Parse(csv).value| :: Parse(csv).value[i] in Parse(csv).value;
  }

  lemma CanonicalRecordsAreFilled(csv: string)
    requires CanonicalCsv(csv).Ok?
    ensures var rs := CanonicalRecords(Parse(csv).value).value; forall i | 0 <= i < |rs| :: |rs[i]| > 0
  {
    var records := Parse(csv).value;
    ReadRecordsAreFilled(csv);
    if !HasAll(Headers(records[0]), CANONICAL_HEADERS) {
      TranslatedRecordsAreFilled(records[1..], ColumnsOf(Headers(records[0])));
    }
  }

  /** Reading the canonical form gives back the canonical records, less the blank ones. */
  lemma CanonicalFormReadsBack(csv: string)
    requires CanonicalCsv(csv).Ok?
    ensures Parse(CanonicalCsv(csv).value) == Ok(WithoutBlanks(CanonicalRecords(Parse(csv).value).value))
  {
    CanonicalRecordsAreFilled(csv);
    PrintThenParse(CanonicalRecords(Parse(csv).value).value);
  }

  /** For a file already in the canonical layout that changes nothing. */
  lemma CanonicalFileIsUnchanged(csv: string)
    requires Parse(csv).Ok? && Parse(csv).value != [] && HasAll(Headers(Parse(csv).value[0]), CANONICAL_HEADERS)
    ensures CanonicalCsv(csv).Ok? && Parse(CanonicalCsv(csv).value) == Parse(csv)
  {
    CanonicalFormIsStable(csv);
  }

  // ----- rows -----

  datatype Fields = Fields(occurredAt: Option<Date>, direction: Option<Direction>, amountKobo: Option<nat>,
                           note: string)

  datatype RowError = BadDate | BadType | BadAmount | NoDescription | LongDescription

  datatype Positions = Positions(date: nat, description: nat, amount: nat, kind: nat)

  function FieldsOf(r: Record, at: Positions): Fields {
    Fields(
      ParseDate(Cell(r, at.date)),
      ParseDirection(Cell(r, at.kind)),
      ParseAmountKobo(Cell(r, at.amount)),
      NoteOf(Cell(r, at.description)))
  }

  function ErrorIf(condition: bool, error: RowError): seq<RowError> {
    if condition then [error] else []
  }

  function ErrorsOf(f: Fields): seq<RowError> {
    ErrorIf(f.occurredAt.None?, BadDate) + ErrorIf(f.direction.None?, BadType) + ErrorIf(f.amountKobo.None?, BadAmount)
    + ErrorIf(f.note == "", NoDescription) + ErrorIf(Utf16Length(f.note) > 280, LongDescription)
  }

  predicate IsValid(f: Fields) {
    f.occurredAt.Some? && f.direction.Some? && f.amountKobo.Some? && f.note != "" && Utf16Length(f.note) <= 280
  }

  lemma ValidHasNoErrors(f: Fields)
    ensures ErrorsOf(f) == [] <==> IsValid(f)
  {
  }

  function DirectionText(d: Direction): string {
    if d == StabilityEngine.In then "in" else "out"
  }

  /** What makes two rows the same: noon of the day, direction, amount, and the note in lower case. */
  function CanonicalText(f: Fields, lower: string -> string): string
    requires IsValid(f)
  {
    (IsoDate(f.occurredAt.value) + "T12:00:00.000Z")
    + ("|" + (DirectionText(f.direction.value) + ("|" + (Decimal(f.amountKobo.value) + ("|" + lower(f.note))))))
  }

  function KeyOf(f: Fields, lower: string -> string): Option<string> {
    if IsValid(f) then Some(CanonicalText(f, lower)) else None
  }

  /** The digest of a text, which no two texts share. */
  datatype Fingerprint = Sha256(text: string)

  function FingerprintOf(canonical: string, occurrence: nat): Fingerprint {
    Sha256(canonical + ("|" + Decimal(occurrence)))
  }

  /** Which repeat of its key entry `i` is, counting from one. */
  function Occurrence(keys: seq<Option<string>>, i: nat): nat
    requires i < |keys|
  {
    multiset(keys[..i + 1])[keys[i]]
  }

  function FingerprintAt(keys: seq<Option<string>>, i: nat): Option<Fingerprint>
    requires i < |keys|
  {
    if keys[i].Some? then Some(FingerprintOf(keys[i].value, Occurrence(keys, i))) else None
  }

  datatype ParsedRow = ParsedRow(
    rowNumber: nat,
    fields: Fields,
    fingerprint: Option<Fingerprint>,
    duplicate: bool,
    errors: seq<RowError>)

  function KeysOf(fs: seq<Fields>, lower: string -> string): seq<Option<string>> {
    seq(|fs|, i requires 0 <= i < |fs| => KeyOf(fs[i], lower))
  }

  function RowAt(fs: seq<Fields>, lower: string -> string, i: nat): ParsedRow
    requires i < |fs|
  {
    ParsedRow(i + 2, fs[i], FingerprintAt(KeysOf(fs, lower), i), false, ErrorsOf(fs[i]))
  }

  function RowsOf(fs: seq<Fields>, lower: string -> string): seq<ParsedRow> {
    seq(|fs|, i requires 0 <= i < |fs| => RowAt(fs, lower, i))
  }

  function AllFields(rs: seq<Record>, at: Positions): seq<Fields> {
    Map(Reader(at), rs)
  }

  function Reader(at: Positions): Record -> Fields {
    r => FieldsOf(r, at)
  }

  function PositionsOf(headers: seq<string>): Positions
    requires HasAll(headers, CANONICAL_HEADERS)
  {
    assert CANONICAL_HEADERS[0] in headers && CANONICAL_HEADERS[1] in headers;
    assert CANONICAL_HEADERS[2] in headers && CANONICAL_HEADERS[3] in headers;
    Positions(
      IndexOf(headers, "date").value,
      IndexOf(headers, "description").value,
      IndexOf(headers, "amount").value,
      IndexOf(headers, "type").value)
  }

  function ParseRecords(records: seq<Record>, lower: string -> string): Result<seq<ParsedRow>, ImportError> {
    if records == [] then Err(EmptyCsv)
    else
      var headers := Headers(records[0]);
      if HasDuplicate(headers) then Err(DuplicateColumns)
      else if !HasAll(headers, CANONICAL_HEADERS) then Err(MissingColumns)
      else if |records| == 1 then Err(NoRows)
      else if |records| > MAX_ROWS + 1 then Err(TooManyRows)
      else Ok(RowsOf(AllFields(records[1..], PositionsOf(headers)), lower))
  }

  /** The rows of a file: those of the records its canonical form reads back as. */
  function ParseImport(csv: string, lower: string -> string): Result<seq<ParsedRow>, ImportError> {
    match CanonicalCsv(csv)
    case Err(e) => Err(e)
    case Ok(text) =>
      match Parse(text)
      case Err(e) => Err(BadCsv(e))
      case Ok(records) => ParseRecords(records, lower)
  }

  /** The number of times each canonical text was seen so far, kept in a map. */
  function Seen(occurrences: map<string, nat>, c: string): nat {
    if c in occurrences then occurrences[c] else 0
  }

  ghost predicate Counts(occurrences: map<string, nat>, keys: seq<Option<string>>) {
    forall c :: Seen(occurrences, c) == multiset(keys)[Some(c)]
  }

  lemma CountsOneMore(occurrences: map<string, nat>, keys: seq<Option<string>>, i: nat)
    requires i < |keys| && Counts(occurrences, keys[..i])
    ensures keys[i].None? ==> Counts(occurrences, keys[..i + 1])
    ensures keys[i].Some? ==> var n := Seen(occurrences, keys[i].value) + 1;
                              n == Occurrence(keys, i) && Counts(occurrences[keys[i].value := n], keys[..i + 1])
  {
    assert keys[..i + 1] == keys[..i] + [keys[i]];
  }

  method ParseTransactionImport(csv: string, lower: string -> string) returns (r: Result<seq<ParsedRow>, ImportError>)
    ensures r == ParseImport(csv, lower)
  {
    var canonical := ToCanonicalImportCsv(csv);
    if canonical.Err? { return Err(canonical.error); }
    var parsed := ParseCsvRecords(canonical.value);
    if parsed.Err? { return Err(BadCsv(parsed.error)); }
    var records := parsed.value;
    if records == [] { return Err(EmptyCsv); }
    var headers := Headers(records[0]);
    if HasDuplicate(headers) { return Err(DuplicateColumns); }
    if !HasAll(headers, CANONICAL_HEADERS) { return Err(MissingColumns); }
    var at, data := PositionsOf(headers), records[1..];
    if data == [] { return Err(NoRows); }
    if |data| > MAX_ROWS { return Err(TooManyRows); }
    var rows := NumberRows(data, at, lower);
    r := Ok(rows);
  }

  lemma CountedRow(fs: seq<Fields>, lower: string -> string, occurrences: map<string, nat>, i: nat, key: Option<string>)
    requires i < |fs| && Counts(occurrences, KeysOf(fs, lower)[..i]) && key == KeyOf(fs[i], lower)
    ensures key.None? ==>
              FingerprintAt(KeysOf(fs, lower), i) == None && Counts(occurrences, KeysOf(fs, lower)[..i + 1])
    ensures key.Some? ==>
              var n := Seen(occurrences, key.value) + 1;
              && FingerprintAt(KeysOf(fs, lower), i) == Some(FingerprintOf(key.value, n))
              && Counts(occurrences[key.value := n], KeysOf(fs, lower)[..i + 1])
  {
    CountsOneMore(occurrences, KeysOf(fs, lower), i);
  }

  /** One row, with the count of its key updated. */
  method ReadRow(fields: Fields, lower: string -> string, occurrences: map<string, nat>, i: nat, ghost fs: seq<Fields>)
    returns (row: ParsedRow, counted: map<string, nat>)
    requires i < |fs| && fs[i] == fields && Counts(occurrences, KeysOf(fs, lower)[..i])
    ensures row == RowAt(fs, lower, i) && Counts(counted, KeysOf(fs, lower)[..i + 1])
  {
    var errors := ErrorsOf(fields);
    var fingerprint := None;
    counted := occurrences;
    ValidHasNoErrors(fields);
    CountedRow(fs, lower, occurrences, i, KeyOf(fields, lower));
    if errors == [] {
      var canonical := CanonicalText(fields, lower);
      var occurrence := Seen(occurrences, canonical) + 1;
      counted := occurrences[canonical := occurrence];
      fingerprint := Some(FingerprintOf(canonical, occurrence));
    }
    row := ParsedRow(i + 2, fields, fingerprint, false, errors);
  }

  lemma FieldsAt(data: seq<Record>, at: Positions, i: nat)
    requires i < |data|
    ensures AllFields(data, at)[i] == FieldsOf(data[i], at)
  {
    MapAt(Reader(at), data, i);
  }

  lemma RowsOneMore(fs: seq<Fields>, lower: string -> string, i: nat)
    requires i < |fs|
    ensures RowsOf(fs, lower)[..i + 1] == RowsOf(fs, lower)[..i] + [RowAt(fs, lower, i)]
  {
    TakeOneMore(RowsOf(fs, lower), i);
  }

  lemma TakeOneMore(rows: seq<ParsedRow>, i: nat)
    requires i < |rows|
    ensures rows[..i + 1] == rows[..i] + [rows[i]]
  {
  }

  method NumberRows(data: seq<Record>, at: Positions, lower: string -> string) returns (rows: seq<ParsedRow>)
    ensures rows == RowsOf(AllFields(data, at), lower)
  {
    ghost var fs := AllFields(data, at);
    var occurrences: map<string, nat> := map[];
    rows := [];
    for i := 0 to |data|
      invariant Counts(occurrences, KeysOf(fs, lower)[..i])
      invariant rows == RowsOf(fs, lower)[..i]
    {
      FieldsAt(data, at, i);
      RowsOneMore(fs, lower, i);
      var row;
      row, occurrences := ReadRow(FieldsOf(data[i], at), lower, occurrences, i, fs);
      rows := rows + [row];
    }
  }

  // ----- what translating a statement preserves -----

  predicate MeansDirection(direction: Option<Direction>, r: Record, c: Columns) {
    && (direction == Some(StabilityEngine.In) <==> CreditOnly(r, c))
    && (direction == Some(StabilityEngine.Out) <==> DebitOnly(r, c))
  }

  predicate MeansAmount(amount: Option<nat>, r: Record, c: Columns) {
    amount == (if CreditOnly(r, c) then ParseAmountKobo(Cell(r, c.credit))
               else if DebitOnly(r, c) then ParseAmountKobo(Cell(r, c.debit))
               else None)
  }

  ghost predicate MeansDate(occurredAt: Option<Date>, value: string) {
    forall d: Date | IsDate(d) && d.year < 10000 :: occurredAt == Some(d) <==> Denotes(value, d)
  }

  /** What a row must say about the statement record it comes from. */
  ghost predicate Means(f: Fields, r: Record, c: Columns) {
    && MeansDirection(f.direction, r, c) && MeansAmount(f.amountKobo, r, c)
    && MeansDate(f.occurredAt, Cell(r, c.date)) && f.note == NoteOf(Cell(r, c.description))
  }

  const CANONICAL_POSITIONS := Positions(0, 1, 2, 3)

  lemma TypeMeans(r: Record, c: Columns, kind: string)
    requires kind == AmountAndType(r, c).1
    ensures MeansDirection(ParseDirection(kind), r, c)
  {
    assert IsWord(kind);
    WordsAreKept(kind);
  }

  lemma EmptyIsNoAmount(s: string)
    requires s == ""
    ensures ParseAmountKobo(s) == None
  {
    TrimOfTrimmed(s);
  }

  lemma AmountMeans(r: Record, c: Columns, amount: string)
    requires amount == AmountAndType(r, c).0
    ensures MeansAmount(ParseAmountKobo(amount), r, c)
  {
    TrimmedAmount(Cell(r, c.credit));
    TrimmedAmount(Cell(r, c.debit));
    if amount == "" { EmptyIsNoAmount(amount); }
  }

  lemma DateMeans(value: string)
    ensures MeansDate(ParseDate(ToIsoDate(value)), value)
  {
    forall d: Date | IsDate(d) && d.year < 10000 ensures ParseDate(ToIsoDate(value)) == Some(d) <==> Denotes(value, d) {
      TranslatedDate(value, d);
    }
  }

  lemma FieldsOfFour(a: string, b: string, c: string, d: string)
    ensures FieldsOf([a, b, c, d], CANONICAL_POSITIONS)
            == Fields(ParseDate(a), ParseDirection(d), ParseAmountKobo(c), NoteOf(b))
  {
  }

  lemma TranslationMeans(r: Record, c: Columns)
    ensures Means(FieldsOf(Translate(r, c), CANONICAL_POSITIONS), r, c)
  {
    FieldsOfFour(ToIsoDate(Cell(r, c.date)), Cell(r, c.description), AmountAndType(r, c).0, AmountAndType(r, c).1);
    TypeMeans(r, c, AmountAndType(r, c).1);
    AmountMeans(r, c, AmountAndType(r, c).0);
    DateMeans(Cell(r, c.date));
  }

  /** The statement records whose translation is not blank. */
  function Kept(rs: seq<Record>, c: Columns): seq<Record> {
    if rs == [] then []
    else if IsBlankRecord(Translate(rs[0], c)) then Kept(rs[1..], c)
    else [rs[0]] + Kept(rs[1..], c)
  }

  lemma {:induction false} KeptAreTranslated(rs: seq<Record>, c: Columns)
    ensures WithoutBlanks(TranslateAll(rs, c)) == TranslateAll(Kept(rs, c), c)
  {
    if rs == [] {
    } else {
      KeptAreTranslated(rs[1..], c);
    }
  }

  lemma ToIsoDateOfBlank(value: string)
    ensures IsBlank(ToIsoDate(value)) <==> IsBlank(value)
  {
    TrimCuts(value);
    IsoTextIsTrimmed(value);
    TrimCuts(ToIsoDate(value));
    if Trim(value) == "" { assert ToIsoDate(value) == ""; }
  }

  lemma FourBlank(a: string, b: string, c: string, d: string)
    ensures IsBlankRecord([a, b, c, d]) <==> IsBlank(a) && IsBlank(b) && IsBlank(c) && IsBlank(d)
  {
    assert [a, b, c, d][0] == a && [a, b, c, d][1] == b && [a, b, c, d][2] == c && [a, b, c, d][3] == d;
  }

  lemma BlankType(r: Record, c: Columns, amount: string, kind: string)
    requires AmountAndType(r, c) == (amount, kind)
    ensures IsBlank(amount) && IsBlank(kind) <==> !CreditOnly(r, c) && !DebitOnly(r, c)
  {
    if CreditOnly(r, c) || DebitOnly(r, c) { assert kind[0] == 'c' || kind[0] == 'd'; }
  }

  /**
   A record is dropped, without an error and without a row number, exactly when its date and description are
   blank and not exactly one amount is filled.
   */
  lemma DroppedRecords(r: Record, c: Columns)
    ensures IsBlankRecord(Translate(r, c)) <==>
        IsBlank(Cell(r, c.date)) && IsBlank(Cell(r, c.description)) && !CreditOnly(r, c) && !DebitOnly(r, c)
  {
    var (amount, kind) := AmountAndType(r, c);
    ToIsoDateOfBlank(Cell(r, c.date));
    BlankType(r, c, amount, kind);
    FourBlank(ToIsoDate(Cell(r, c.date)), Cell(r, c.description), amount, kind);
  }

  lemma WordIsNormal(header: string, index: nat)
    requires IsWord(header)
    ensures NormalizeHeader(header, index) == header
  {
    WordsAreKept(header);
  }

  lemma HeadersDiffer()
    ensures forall i, j | 0 <= i < 4 && 0 <= j < 4 && CANONICAL_HEADERS[i] == CANONICAL_HEADERS[j] :: i == j
  {
    assert CANONICAL_HEADERS[0][0] == 'd' && CANONICAL_HEADERS[3][0] == 't';
    assert |CANONICAL_HEADERS[0]| == 4 && |CANONICAL_HEADERS[1]| == 11 && |CANONICAL_HEADERS[2]| == 6;
  }

  lemma CanonicalHeadersAreNormal()
    ensures Headers(CANONICAL_HEADERS) == CANONICAL_HEADERS
    ensures !IsBlankRecord(CANONICAL_HEADERS)
  {
    forall i | 0 <= i < 4
      ensures NormalizeHeader(CANONICAL_HEADERS[i], i) == CANONICAL_HEADERS[i]
    {
      WordIsNormal(CANONICAL_HEADERS[i], i);
    }
    assert CANONICAL_HEADERS[0][0] == 'd';
  }

  lemma CanonicalHeadersArePlaced()
    ensures HasAll(CANONICAL_HEADERS, CANONICAL_HEADERS) && PositionsOf(CANONICAL_HEADERS) == CANONICAL_POSITIONS
  {
    HeadersDiffer();
  }

  function StatementColumns(csv: string): Columns
    requires IsStatement(csv)
  {
    ColumnsOf(Headers(Parse(csv).value[0]))
  }

  /** A readable file in the debit and credit layout. */
  predicate IsStatement(csv: string) {
    Parse(csv).Ok? && Parse(csv).value != [] && IsDebitCredit(Headers(Parse(csv).value[0]))
  }

  function KeptRecords(csv: string): seq<Record>
    requires IsStatement(csv)
  {
    Kept(Parse(csv).value[1..], StatementColumns(csv))
  }

  /** What a debit and credit statement reads back as. */
  lemma StatementReadsBack(csv: string)
    requires IsStatement(csv)
    ensures CanonicalCsv(csv).Ok?
    ensures Parse(CanonicalCsv(csv).value)
            == Ok([CANONICAL_HEADERS] + TranslateAll(KeptRecords(csv), StatementColumns(csv)))
  {
    var records, c := Parse(csv).value, StatementColumns(csv);
    CanonicalFormReadsBack(csv);
    CanonicalHeadersAreNormal();
    KeptAreTranslated(records[1..], c);
    WithoutBlanksConcat([CANONICAL_HEADERS], TranslateAll(records[1..], c));
    assert WithoutBlanks([CANONICAL_HEADERS]) == [CANONICAL_HEADERS];
  }

  lemma RowMeans(kept: seq<Record>, c: Columns, fs: seq<Fields>, i: nat)
    requires fs == AllFields(TranslateAll(kept, c), CANONICAL_POSITIONS) && i < |kept|
    ensures Means(fs[i], kept[i], c)
  {
    MapAt(Translator(c), kept, i);
    MapAt(Reader(CANONICAL_POSITIONS), TranslateAll(kept, c), i);
    TranslationMeans(kept[i], c);
  }

  lemma StatementRows(csv: string, lower: string -> string)
    requires IsStatement(csv) && ParseImport(csv, lower).Ok?
    ensures ParseImport(csv, lower).value
            == RowsOf(AllFields(TranslateAll(KeptRecords(csv), StatementColumns(csv)), CANONICAL_POSITIONS), lower)
  {
    StatementReadsBack(csv);
    CanonicalHeadersAreNormal();
    CanonicalHeadersArePlaced();
    var translated := TranslateAll(KeptRecords(csv), StatementColumns(csv));
    assert ([CANONICAL_HEADERS] + translated)[1..] == translated;
  }

  lemma StatementRowMeans(kept: seq<Record>, c: Columns, fs: seq<Fields>, row: ParsedRow, i: nat)
    requires i < |kept| && fs == AllFields(TranslateAll(kept, c), CANONICAL_POSITIONS)
    requires row.fields == fs[i] && row.errors == ErrorsOf(fs[i])
    ensures Means(row.fields, kept[i], c)
    ensures row.errors == [] ==> CreditOnly(kept[i], c) || DebitOnly(kept[i], c)
  {
    RowMeans(kept, c, fs, i);
    ValidHasNoErrors(row.fields);
  }

  lemma StatementRowsMean(kept: seq<Record>, c: Columns, fs: seq<Fields>, lower: string -> string)
    requires fs == AllFields(TranslateAll(kept, c), CANONICAL_POSITIONS)
    ensures var rows := RowsOf(fs, lower);
            && |rows| == |kept|
            && (forall i | 0 <= i < |rows| :: Means(rows[i].fields, kept[i], c))
            && (forall i | 0 <= i < |rows| && rows[i].errors == [] :: CreditOnly(kept[i], c) || DebitOnly(kept[i], c))
  {
    var rows := RowsOf(fs, lower);
    forall i | 0 <= i < |rows|
      ensures Means(rows[i].fields, kept[i], c)
      ensures rows[i].errors == [] ==> CreditOnly(kept[i], c) || DebitOnly(kept[i], c)
    {
      StatementRowMeans(kept, c, fs, rows[i], i);
    }
  }

  /**
   The rows of a debit and credit statement are those of its records, in order, each meaning what its record
   says, and valid only if exactly one amount is filled.
   */
  lemma StatementKeepsMeaning(csv: string, lower: string -> string)
    requires IsStatement(csv) && ParseImport(csv, lower).Ok?
    ensures var (rows, kept, c) := (ParseImport(csv, lower).value, KeptRecords(csv), StatementColumns(csv));
            && |rows| == |kept|
            && (forall i | 0 <= i < |rows| :: Means(rows[i].fields, kept[i], c))
            && (forall i | 0 <= i < |rows| && rows[i].errors == [] :: CreditOnly(kept[i], c) || DebitOnly(kept[i], c))
  {
    var kept, c := KeptRecords(csv), StatementColumns(csv);
    StatementRows(csv, lower);
    StatementRowsMean(kept, c, AllFields(TranslateAll(kept, c), CANONICAL_POSITIONS), lower);
  }
}
