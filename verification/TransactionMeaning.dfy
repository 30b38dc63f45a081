/** Which files are accepted, and what the rows of an accepted file mean, in terms of its cells. */
module TransactionMeaning {
  import opened Wrappers
  import opened Text
  import opened Numerals
  import opened Calendar
  import opened Csv
  import opened ImportCells
  import opened CellMeaning
  import opened TransactionImport
  import StabilityEngine

  // ----- columns -----

  /** The first column whose header is this word. */
  ghost predicate IsColumn(header: Record, j: nat, word: string) {
    j < |header| && Spells(header[j], word) && forall k | 0 <= k < j :: !Spells(header[k], word)
  }

  ghost predicate HasColumn(header: Record, word: string) {
    exists j | 0 <= j < |header| :: Spells(header[j], word)
  }

  lemma MarkIsTrimmed(header: string)
    requires header != "" && header[0] == '\U{FEFF}'
    ensures Trim(header[1..]) == Trim(header)
  {
  }

  lemma HeaderIs(header: Record, j: nat, word: string)
    requires j < |header| && IsPhrase(word)
    ensures Headers(header)[j] == word <==> Spells(header[j], word)
  {
    if j == 0 && header[0] != "" && header[0][0] == '\U{FEFF}' { MarkIsTrimmed(header[0]); }
    SpellsIs(header[j], word);
  }

  lemma ColumnsAre(header: Record, word: string)
    requires IsPhrase(word)
    ensures word in Headers(header) <==> HasColumn(header, word)
    ensures IndexOf(Headers(header), word).Some? ==> IsColumn(header, IndexOf(Headers(header), word).value, word)
  {
    var headers := Headers(header);
    forall j | 0 <= j < |header| ensures headers[j] == word <==> Spells(header[j], word) { HeaderIs(header, j, word); }
    if IndexOf(headers, word).Some? {
      var j := IndexOf(headers, word).value;
      forall k | 0 <= k < j ensures headers[k] != word { assert headers[k] in headers[..j]; }
    }
  }

  lemma ColumnIsFound(header: Record, j: nat, word: string)
    requires IsPhrase(word) && IsColumn(header, j, word)
    ensures word in Headers(header) && IndexOf(Headers(header), word) == Some(j)
  {
    ColumnsAre(header, word);
  }

  /** Two headers that are not blank are the same word. */
  predicate RepeatsHeader(header: Record) {
    exists i, j | 0 <= i < j < |header| :: Lower(Trim(header[i])) == Lower(Trim(header[j])) && !IsBlank(header[j])
  }

  lemma NormalHeader(header: Record, j: nat)
    requires j < |header|
    ensures Headers(header)[j] == Lower(Trim(header[j]))
    ensures Headers(header)[j] == "" <==> IsBlank(header[j])
  {
    if j == 0 && header[0] != "" && header[0][0] == '\U{FEFF}' { MarkIsTrimmed(header[0]); }
    TrimCuts(header[j]);
  }

  lemma RepeatsAre(header: Record)
    ensures HasDuplicate(Headers(header)) <==> RepeatsHeader(header)
  {
    forall j | 0 <= j < |header|
      ensures Headers(header)[j] == Lower(Trim(header[j])) && (Headers(header)[j] == "" <==> IsBlank(header[j]))
    {
      NormalHeader(header, j);
    }
  }

  // ----- the two layouts -----

  ghost predicate HasCanonicalColumns(header: Record) {
    && HasColumn(header, "date") && HasColumn(header, "description") && HasColumn(header, "amount")
    && HasColumn(header, "type")
  }

  ghost predicate HasDateColumn(header: Record) {
    || HasColumn(header, "date") || HasColumn(header, "transaction date") || HasColumn(header, "value date")
    || HasColumn(header, "posting date")
  }

  ghost predicate HasDescriptionColumn(header: Record) {
    || HasColumn(header, "description") || HasColumn(header, "narration") || HasColumn(header, "particulars")
    || HasColumn(header, "details")
  }

  ghost predicate HasStatementColumns(header: Record) {
    HasDateColumn(header) && HasDescriptionColumn(header) && HasColumn(header, "debit") && HasColumn(header, "credit")
  }

  /** The column of the first of four names that one has. */
  ghost predicate IsColumnOf(header: Record, j: nat, a: string, b: string, c: string, d: string) {
    if HasColumn(header, a) then IsColumn(header, j, a)
    else if HasColumn(header, b) then IsColumn(header, j, b)
    else if HasColumn(header, c) then IsColumn(header, j, c)
    else IsColumn(header, j, d)
  }

  lemma OneMoreWord(headers: seq<string>, a: string, rest: seq<string>)
    ensures FindHeaderIndex(headers, [a] + rest)
            == if IndexOf(headers, a).Some? then IndexOf(headers, a) else FindHeaderIndex(headers, rest)
  {
    assert ([a] + rest)[1..] == rest;
  }

  lemma FourWords(headers: seq<string>, a: string, b: string, c: string, d: string)
    ensures FindHeaderIndex(headers, [a, b, c, d])
            == if IndexOf(headers, a).Some? then IndexOf(headers, a)
               else if IndexOf(headers, b).Some? then IndexOf(headers, b)
               else if IndexOf(headers, c).Some? then IndexOf(headers, c)
               else IndexOf(headers, d)
  {
    assert [a, b, c, d] == [a] + ([b] + ([c] + ([d] + [])));
    OneMoreWord(headers, a, [b] + ([c] + ([d] + [])));
    OneMoreWord(headers, b, [c] + ([d] + []));
    OneMoreWord(headers, c, [d] + []);
    OneMoreWord(headers, d, []);
  }

  lemma AliasColumn(header: Record, a: string, b: string, c: string, d: string)
    requires IsPhrase(a) && IsPhrase(b) && IsPhrase(c) && IsPhrase(d)
    ensures var found := FindHeaderIndex(Headers(header), [a, b, c, d]);
            && (found.Some? <==> HasColumn(header, a) || HasColumn(header, b) || HasColumn(header, c)
                                 || HasColumn(header, d))
            && (found.Some? ==> IsColumnOf(header, found.value, a, b, c, d))
  {
    FourWords(Headers(header), a, b, c, d);
    ColumnsAre(header, a);
    ColumnsAre(header, b);
    ColumnsAre(header, c);
    ColumnsAre(header, d);
  }

  lemma NameOf(header: Record, word: string)
    requires word == "date" || word == "description" || word == "amount" || word == "type" || word == "debit"
             || word == "credit"
    ensures IsPhrase(word)
    ensures word in Headers(header) <==> HasColumn(header, word)
    ensures IndexOf(Headers(header), word).Some? ==> IsColumn(header, IndexOf(Headers(header), word).value, word)
  {
    assert IsPhrase(word);
    ColumnsAre(header, word);
  }

  lemma AllFour(headers: seq<string>)
    ensures HasAll(headers, CANONICAL_HEADERS)
            <==> "date" in headers && "description" in headers && "amount" in headers && "type" in headers
  {
    if HasAll(headers, CANONICAL_HEADERS) {
      assert CANONICAL_HEADERS[0] in headers && CANONICAL_HEADERS[1] in headers;
      assert CANONICAL_HEADERS[2] in headers && CANONICAL_HEADERS[3] in headers;
    }
  }

  lemma CanonicalColumns(header: Record)
    ensures HasAll(Headers(header), CANONICAL_HEADERS) <==> HasCanonicalColumns(header)
  {
    AllFour(Headers(header));
    NameOf(header, "date");
    NameOf(header, "description");
    NameOf(header, "amount");
    NameOf(header, "type");
  }

  lemma DateColumn(header: Record)
    ensures var found := FindHeaderIndex(Headers(header), DATE_ALIASES);
            && (found.Some? <==> HasDateColumn(header))
            && (found.Some? ==>
                  IsColumnOf(header, found.value, "date", "transaction date", "value date", "posting date"))
  {
    AliasColumn(header, "date", "transaction date", "value date", "posting date");
  }

  lemma DescriptionColumn(header: Record)
    ensures var found := FindHeaderIndex(Headers(header), DESCRIPTION_ALIASES);
            && (found.Some? <==> HasDescriptionColumn(header))
            && (found.Some? ==>
                  IsColumnOf(header, found.value, "description", "narration", "particulars", "details"))
  {
    AliasColumn(header, "description", "narration", "particulars", "details");
  }

  lemma StatementHeader(header: Record)
    ensures IsDebitCredit(Headers(header)) <==> HasStatementColumns(header) && !HasCanonicalColumns(header)
  {
    CanonicalColumns(header);
    DateColumn(header);
    DescriptionColumn(header);
    NameOf(header, "debit");
    NameOf(header, "credit");
  }

  /** Where a statement's columns are. */
  lemma StatementColumnsAre(csv: string)
    requires IsStatement(csv)
    ensures var (header, c) := (Parse(csv).value[0], StatementColumns(csv));
            && IsColumn(header, c.debit, "debit") && IsColumn(header, c.credit, "credit")
            && IsColumnOf(header, c.date, "date", "transaction date", "value date", "posting date")
            && IsColumnOf(header, c.description, "description", "narration", "particulars", "details")
  {
    var header := Parse(csv).value[0];
    DateColumn(header);
    DescriptionColumn(header);
    NameOf(header, "debit");
    NameOf(header, "credit");
  }

  // ----- which files are accepted -----

  /** How many data rows a file may have. */
  predicate IsRowCount(n: int) {
    1 <= n <= 500
  }

  function RowCountError(n: nat): ImportError
    requires !IsRowCount(n)
  {
    if n == 0 then NoRows else TooManyRows
  }

  /** A file in the canonical layout is read exactly when no header is repeated and it has 1 to 500 data rows. */
  lemma CanonicalFileIsRead(csv: string, lower: string -> string)
    requires Parse(csv).Ok? && Parse(csv).value != [] && HasCanonicalColumns(Parse(csv).value[0])
    ensures var (records, r) := (Parse(csv).value, ParseImport(csv, lower));
            && (RepeatsHeader(records[0]) ==> r == Err(DuplicateColumns))
            && (!RepeatsHeader(records[0]) && !IsRowCount(|records| - 1) ==> r == Err(RowCountError(|records| - 1)))
            && (!RepeatsHeader(records[0]) && IsRowCount(|records| - 1) ==> r.Ok? && |r.value| == |records| - 1)
  {
    CanonicalColumns(Parse(csv).value[0]);
    CanonicalFileIsUnchanged(csv);
    RepeatsAre(Parse(csv).value[0]);
  }

  lemma CanonicalHeadersDoNotRepeat()
    ensures !HasDuplicate(Headers(CANONICAL_HEADERS))
  {
    CanonicalHeadersAreNormal();
    HeadersDiffer();
  }

  lemma TranslatedIsRead(translated: seq<Record>, lower: string -> string)
    ensures var r := ParseRecords([CANONICAL_HEADERS] + translated, lower);
            if IsRowCount(|translated|) then r.Ok? && |r.value| == |translated|
            else r == Err(RowCountError(|translated|))
  {
    var records := [CANONICAL_HEADERS] + translated;
    assert records[0] == CANONICAL_HEADERS && records[1..] == translated;
    CanonicalHeadersDoNotRepeat();
    CanonicalHeadersAreNormal();
    CanonicalHeadersArePlaced();
  }

  /** A statement is read exactly when 1 to 500 of its records are kept. */
  lemma StatementIsRead(csv: string, lower: string -> string)
    requires Parse(csv).Ok? && Parse(csv).value != []
    requires HasStatementColumns(Parse(csv).value[0]) && !HasCanonicalColumns(Parse(csv).value[0])
    ensures IsStatement(csv)
    ensures var (n, r) := (|KeptRecords(csv)|, ParseImport(csv, lower));
            if IsRowCount(n) then r.Ok? && |r.value| == n else r == Err(RowCountError(n))
  {
    StatementHeader(Parse(csv).value[0]);
    StatementReadsBack(csv);
    TranslatedIsRead(TranslateAll(KeptRecords(csv), StatementColumns(csv)), lower);
  }

  /** Any other file is refused: unreadable, empty, or without the columns of either layout. */
  lemma OtherFilesAreRefused(csv: string, lower: string -> string)
    ensures Parse(csv).Err? ==> ParseImport(csv, lower) == Err(BadCsv(Parse(csv).error))
    ensures Parse(csv) == Ok([]) ==> ParseImport(csv, lower) == Err(EmptyCsv)
    ensures (Parse(csv).Ok? && Parse(csv).value != [] && !HasCanonicalColumns(Parse(csv).value[0])
             && !HasStatementColumns(Parse(csv).value[0])) ==> ParseImport(csv, lower) == Err(MissingColumns)
  {
    if Parse(csv).Ok? && Parse(csv).value != [] {
      CanonicalColumns(Parse(csv).value[0]);
      StatementHeader(Parse(csv).value[0]);
    }
  }

  // ----- what the rows of a canonical file mean -----

  ghost predicate MeansCells(f: Fields, date: string, description: string, amount: string, kind: string) {
    && (forall d: Date | IsDate(d) && d.year < 10000 :: f.occurredAt == Some(d) <==> Surrounds(date, IsoDate(d)))
    && (f.direction == Some(StabilityEngine.In)
        <==> Spells(kind, "income") || Spells(kind, "in") || Spells(kind, "credit"))
    && (f.direction == Some(StabilityEngine.Out)
        <==> Spells(kind, "expense") || Spells(kind, "out") || Spells(kind, "debit"))
    && (forall k: nat ::
          f.amountKobo == Some(k) <==> SpellsAmount(amount, k) && 0 < k <= 9_007_199_254_740_991)
    && WithoutSpaces(f.note) == WithoutSpaces(description) && IsTrimmed(f.note) && SingleBlanks(f.note)
  }

  lemma FieldsMeanCells(r: Record, at: Positions)
    ensures MeansCells(FieldsOf(r, at), Cell(r, at.date), Cell(r, at.description), Cell(r, at.amount), Cell(r, at.kind))
  {
    forall d: Date | IsDate(d) && d.year < 10000
      ensures ParseDate(Cell(r, at.date)) == Some(d) <==> Surrounds(Cell(r, at.date), IsoDate(d))
    {
      DayExactly(Cell(r, at.date), d);
    }
    DirectionExactly(Cell(r, at.kind));
    forall k: nat
      ensures ParseAmountKobo(Cell(r, at.amount)) == Some(k)
              <==> SpellsAmount(Cell(r, at.amount), k) && 0 < k <= 9_007_199_254_740_991
    {
      AmountExactly(Cell(r, at.amount), k);
    }
    NoteIsNormal(Cell(r, at.description));
  }

  /** Positions from `n` on of characters beyond the basic plane, which count as two. */
  function Wide(s: string, n: nat): set<nat> {
    set i | n <= i < |s| && s[i] > '\U{FFFF}'
  }

  lemma WideOneMore(s: string, n: nat)
    requires n < |s|
    ensures |Wide(s, n)| == |Wide(s, n + 1)| + if s[n] > '\U{FFFF}' then 1 else 0
  {
    assert Wide(s, n) == if s[n] > '\U{FFFF}' then Wide(s, n + 1) + {n} else Wide(s, n + 1);
  }

  lemma {:induction false} LengthIs(s: string, n: nat)
    requires n <= |s|
    ensures Utf16Length(s[n..]) == |s| - n + |Wide(s, n)|
    decreases |s| - n
  {
    if n == |s| {
    } else {
      LengthIs(s, n + 1);
      WideOneMore(s, n);
      assert s[n..][1..] == s[n + 1..];
    }
  }

  /** The number of a row, counting the header as the first, and the errors its fields have. */
  predicate IsReported(row: ParsedRow, i: nat) {
    && row.rowNumber == i + 2 && !row.duplicate && |row.errors| <= 5
    && (BadDate in row.errors <==> row.fields.occurredAt.None?)
    && (BadType in row.errors <==> row.fields.direction.None?)
    && (BadAmount in row.errors <==> row.fields.amountKobo.None?)
    && (NoDescription in row.errors <==> row.fields.note == "")
    && (LongDescription in row.errors <==> |row.fields.note| + |Wide(row.fields.note, 0)| > 280)
    && (row.fingerprint.Some? <==> row.errors == [])
  }

  lemma ErrorsAreOfFields(f: Fields)
    ensures var errors := ErrorsOf(f);
            && |errors| <= 5
            && (BadDate in errors <==> f.occurredAt.None?) && (BadType in errors <==> f.direction.None?)
            && (BadAmount in errors <==> f.amountKobo.None?) && (NoDescription in errors <==> f.note == "")
            && (LongDescription in errors <==> Utf16Length(f.note) > 280)
  {
  }

  lemma RowIsReported(fs: seq<Fields>, lower: string -> string, i: nat)
    requires i < |fs|
    ensures IsReported(RowAt(fs, lower, i), i)
  {
    ErrorsAreOfFields(fs[i]);
    ValidHasNoErrors(fs[i]);
    LengthIs(fs[i].note, 0);
    assert fs[i].note[0..] == fs[i].note;
  }

  /** Every row of a file is reported under its number, with an error for each field that is wrong. */
  lemma RowsAreReported(csv: string, lower: string -> string, i: nat)
    requires ParseImport(csv, lower).Ok? && i < |ParseImport(csv, lower).value|
    ensures IsReported(ParseImport(csv, lower).value[i], i)
  {
    var records := Parse(CanonicalCsv(csv).value).value;
    RowIsReported(AllFields(records[1..], PositionsOf(Headers(records[0]))), lower, i);
  }

  /** The columns of a canonical file, wherever they stand. */
  ghost predicate ArePositions(header: Record, at: Positions) {
    && IsColumn(header, at.date, "date") && IsColumn(header, at.description, "description")
    && IsColumn(header, at.amount, "amount") && IsColumn(header, at.kind, "type")
  }

  lemma PositionsAre(header: Record, at: Positions)
    requires HasCanonicalColumns(header) && ArePositions(header, at)
    ensures HasAll(Headers(header), CANONICAL_HEADERS) && PositionsOf(Headers(header)) == at
  {
    CanonicalColumns(header);
    NameOf(header, "date");
    NameOf(header, "description");
    NameOf(header, "amount");
    NameOf(header, "type");
    ColumnIsFound(header, at.date, "date");
    ColumnIsFound(header, at.description, "description");
    ColumnIsFound(header, at.amount, "amount");
    ColumnIsFound(header, at.kind, "type");
  }

  /**
   The rows of a readable canonical file, its columns in any order, are those of its records, each with the day, the
   direction, the amount and the note that its cells spell.
   */
  lemma CanonicalFileKeepsMeaning(csv: string, lower: string -> string, at: Positions, i: nat)
    requires Parse(csv).Ok? && Parse(csv).value != [] && HasCanonicalColumns(Parse(csv).value[0])
    requires ArePositions(Parse(csv).value[0], at)
    requires ParseImport(csv, lower).Ok? && i < |ParseImport(csv, lower).value|
    ensures i + 1 < |Parse(csv).value|
    ensures var (f, r) := (ParseImport(csv, lower).value[i].fields, Parse(csv).value[i + 1]);
            MeansCells(f, Cell(r, at.date), Cell(r, at.description), Cell(r, at.amount), Cell(r, at.kind))
  {
    var records := Parse(csv).value;
    PositionsAre(records[0], at);
    CanonicalFileIsUnchanged(csv);
    MapAt(Reader(at), records[1..], i);
    FieldsMeanCells(records[i + 1], at);
  }

  /** A statement row's amount and direction, in terms of the two cells. */
  lemma StatementRowMeansCells(csv: string, lower: string -> string, i: nat)
    requires IsStatement(csv) && ParseImport(csv, lower).Ok? && i < |ParseImport(csv, lower).value|
    ensures i < |KeptRecords(csv)|
    ensures var (f, r, c) := (ParseImport(csv, lower).value[i].fields, KeptRecords(csv)[i], StatementColumns(csv));
            var (credit, debit) := (Cell(r, c.credit), Cell(r, c.debit));
            && (f.direction == Some(StabilityEngine.In) <==> AmountPresent(credit) && !AmountPresent(debit))
            && (f.direction == Some(StabilityEngine.Out) <==> AmountPresent(debit) && !AmountPresent(credit))
            && (forall k: nat :: f.amountKobo == Some(k) <==>
                  0 < k <= 9_007_199_254_740_991
                  && ((f.direction == Some(StabilityEngine.In) && SpellsAmount(credit, k))
                      || (f.direction == Some(StabilityEngine.Out) && SpellsAmount(debit, k))))
  {
    StatementKeepsMeaning(csv, lower);
    var (f, r, c) := (ParseImport(csv, lower).value[i].fields, KeptRecords(csv)[i], StatementColumns(csv));
    forall k: nat
      ensures ParseAmountKobo(Cell(r, c.credit)) == Some(k)
              <==> SpellsAmount(Cell(r, c.credit), k) && 0 < k <= 9_007_199_254_740_991
      ensures ParseAmountKobo(Cell(r, c.debit)) == Some(k)
              <==> SpellsAmount(Cell(r, c.debit), k) && 0 < k <= 9_007_199_254_740_991
    {
      AmountExactly(Cell(r, c.credit), k);
      AmountExactly(Cell(r, c.debit), k);
    }
  }
}
