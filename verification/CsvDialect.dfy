/** Exactly which texts the CSV reader accepts, and what it makes of every way to write a record. */
module CsvDialect {
  import opened Wrappers
  import opened Text
  import opened Csv

  // ----- which texts are accepted -----

  predicate IsSeparator(c: char) {
    c == ',' || c == '\n' || c == '\r'
  }

  /** Whether position `i` lies between quotes: whether the number of quotes before it is odd. */
  predicate IsInside(csv: string, i: nat)
    requires i <= |csv|
  {
    if i == 0 then false else if csv[i - 1] == '"' then !IsInside(csv, i - 1) else IsInside(csv, i - 1)
  }

  /** Whether the last quote or separator before `i` is a quote. */
  predicate FollowsQuote(csv: string, i: nat)
    requires i <= |csv|
  {
    i > 0 && (csv[i - 1] == '"' || (!IsSeparator(csv[i - 1]) && FollowsQuote(csv, i - 1)))
  }

  /**
   Outside of quotes a quote opens a field, or follows a quote and so is one of a pair, and nothing but white space
   follows a closing one.
   */
  predicate FitsAt(csv: string, i: nat)
    requires i < |csv|
  {
    if csv[i] == '"' then i == 0 || IsSeparator(csv[i - 1]) || csv[i - 1] == '"'
    else IsSeparator(csv[i]) || IsSpace(csv[i]) || !FollowsQuote(csv, i)
  }

  predicate FitsFrom(csv: string, i: nat) {
    forall k | i <= k < |csv| && !IsInside(csv, k) :: FitsAt(csv, k)
  }

  /** What the reader knows of the text before `i`. */
  predicate IsAt(csv: string, i: nat, s: State)
    requires i <= |csv|
  {
    && (s.quoted <==> IsInside(csv, i))
    && (!s.quoted ==> (s.closedQuote <==> FollowsQuote(csv, i)))
    && (!s.quoted && s.closedQuote && i < |csv| ==> csv[i] != '"' || csv[i - 1] != '"')
    && (!s.quoted && !s.closedQuote ==> (s.field == "" <==> i == 0 || IsSeparator(csv[i - 1])))
  }

  /** The reader refuses misplaced quotes at once, and an open one at the end. */
  predicate ReadsFrom(csv: string, i: nat, s: State)
    requires i <= |csv|
  {
    match Scan(csv[i..], s)
    case Ok(last) => FitsFrom(csv, i) && (last.quoted <==> IsInside(csv, |csv|))
    case Err(e) => e.MalformedQuoting? && !FitsFrom(csv, i)
  }

  lemma OneFurther(csv: string, i: nat)
    requires i < |csv|
    ensures FitsFrom(csv, i) <==> (!IsInside(csv, i) ==> FitsAt(csv, i)) && FitsFrom(csv, i + 1)
  {
  }

  lemma MarksMove(csv: string, i: nat)
    requires i < |csv|
    ensures IsInside(csv, i + 1) == (if csv[i] == '"' then !IsInside(csv, i) else IsInside(csv, i))
    ensures FollowsQuote(csv, i + 1) == (csv[i] == '"' || (!IsSeparator(csv[i]) && FollowsQuote(csv, i)))
  {
  }

  /** From one position to the next: inside of quotes ... */
  lemma {:induction false} ReadsInside(csv: string, i: nat, s: State)
    requires i < |csv| && IsAt(csv, i, s) && s.quoted
    ensures ReadsFrom(csv, i, s)
    decreases |csv| - i, 0
  {
    var text := csv[i..];
    OneFurther(csv, i);
    MarksMove(csv, i);
    assert text[1..] == csv[i + 1..];
    if text[0] != '"' {
      ReaderFits(csv, i + 1, s.(field := s.field + [text[0]]));
    } else if |text| > 1 && text[1] == '"' {
      OneFurther(csv, i + 1);
      MarksMove(csv, i + 1);
      assert text[2..] == csv[i + 2..];
      ReaderFits(csv, i + 2, s.(field := s.field + ['"']));
    } else {
      ReaderFits(csv, i + 1, s.(quoted := false, closedQuote := true));
    }
  }

  /** ... at the end of a record ... */
  lemma {:induction false} ReadsEnd(csv: string, i: nat, s: State)
    requires i < |csv| && IsAt(csv, i, s) && !s.quoted && EndsRecord(csv[i])
    ensures ReadsFrom(csv, i, s)
    decreases |csv| - i, 0
  {
    var text := csv[i..];
    OneFurther(csv, i);
    MarksMove(csv, i);
    if EndLength(text) == 2 {
      OneFurther(csv, i + 1);
      MarksMove(csv, i + 1);
      assert text[2..] == csv[i + 2..];
      ReaderFits(csv, i + 2, PushRecord(s));
    } else {
      assert text[1..] == csv[i + 1..];
      ReaderFits(csv, i + 1, PushRecord(s));
    }
  }

  /** ... and elsewhere. */
  lemma {:induction false} ReadsOutside(csv: string, i: nat, s: State)
    requires i < |csv| && IsAt(csv, i, s) && !s.quoted && !EndsRecord(csv[i])
    ensures ReadsFrom(csv, i, s)
    decreases |csv| - i, 0
  {
    var text := csv[i..];
    OneFurther(csv, i);
    MarksMove(csv, i);
    assert text[1..] == csv[i + 1..];
    if text[0] == ',' {
      ReaderFits(csv, i + 1, PushField(s));
    } else if s.closedQuote {
      if IsSpace(text[0]) { ReaderFits(csv, i + 1, s); }
    } else if text[0] == '"' {
      if s.field == "" { ReaderFits(csv, i + 1, s.(quoted := true)); }
    } else {
      ReaderFits(csv, i + 1, s.(field := s.field + [text[0]]));
    }
  }

  lemma {:induction false} ReaderFits(csv: string, i: nat, s: State)
    requires i <= |csv| && IsAt(csv, i, s)
    ensures ReadsFrom(csv, i, s)
    decreases |csv| - i, 1
  {
    if i == |csv| {
      assert csv[i..] == "";
    } else if s.quoted {
      ReadsInside(csv, i, s);
    } else if EndsRecord(csv[i]) {
      ReadsEnd(csv, i, s);
    } else {
      ReadsOutside(csv, i, s);
    }
  }

  /**
   A text is refused as malformed exactly when a character outside of quotes is misplaced, as unclosed exactly when
   none is but the quotes are odd in number, and accepted otherwise.
   */
  lemma AcceptsExactly(csv: string)
    ensures Parse(csv) == Err(MalformedQuoting) <==> !FitsFrom(csv, 0)
    ensures Parse(csv) == Err(UnclosedQuote) <==> FitsFrom(csv, 0) && IsInside(csv, |csv|)
    ensures Parse(csv).Ok? <==> FitsFrom(csv, 0) && !IsInside(csv, |csv|)
  {
    assert csv[0..] == csv;
    ReaderFits(csv, 0, START);
  }

  // ----- every way to write records -----

  /** A field between quotes, with white space after them, or as it is. */
  datatype Style = Quoted(space: string) | Plain

  predicate CanWrite(value: string, style: Style) {
    if style.Plain? then !NeedsQuotes(value)
    else IsBlank(style.space) && '\n' !in style.space && '\r' !in style.space
  }

  function WriteField(value: string, style: Style): string {
    if style.Plain? then value else "\"" + DoubleQuotes(value) + "\"" + style.space
  }

  datatype Field = Field(value: string, style: Style)

  type Line = seq<Field>

  predicate CanWriteLine(line: Line) {
    |line| > 0 && forall i | 0 <= i < |line| :: CanWrite(line[i].value, line[i].style)
  }

  function RecordOf(line: Line): Record {
    seq(|line|, i requires 0 <= i < |line| => line[i].value)
  }

  function WriteLine(line: Line): string
    requires |line| > 0
  {
    if |line| == 1 then WriteField(line[0].value, line[0].style)
    else WriteField(line[0].value, line[0].style) + ("," + WriteLine(line[1..]))
  }

  predicate IsEnd(end: string) {
    end == "\n" || end == "\r" || end == "\r\n"
  }

  /** The lines, each but the last followed by a line end; a carriage return is not left before a line feed. */
  ghost predicate Writes(text: string, lines: seq<Line>)
    decreases |lines|
  {
    && lines != [] && CanWriteLine(lines[0])
    && if |lines| == 1 then text == WriteLine(lines[0])
       else exists end, rest :: IsEnd(end) && (end == "\r" ==> rest == "" || rest[0] != '\n')
              && text == WriteLine(lines[0]) + (end + rest) && Writes(rest, lines[1..])
  }

  function RecordsOf(lines: seq<Line>): seq<Record> {
    seq(|lines|, i requires 0 <= i < |lines| => RecordOf(lines[i]))
  }

  predicate FieldEnds(rest: string) {
    rest == "" || IsSeparator(rest[0])
  }

  lemma {:induction false} SkipsSpace(space: string, rest: string, s: State)
    requires IsBlank(space) && '\n' !in space && '\r' !in space && !s.quoted && s.closedQuote
    ensures Scan(space + rest, s) == Scan(rest, s)
  {
    if space == "" {
      assert space + rest == rest;
    } else {
      assert (space + rest)[1..] == space[1..] + rest && space[0] in space;
      SkipsSpace(space[1..], rest, s);
    }
  }

  lemma NotAQuote(space: string, rest: string)
    requires IsBlank(space) && FieldEnds(rest)
    ensures space + rest == "" || (space + rest)[0] != '"'
  {
    if space == "" { assert space + rest == rest; }
  }

  lemma QuotedThen(value: string, space: string, rest: string)
    ensures "\"" + DoubleQuotes(value) + "\"" + space + rest
            == "\"" + (DoubleQuotes(value) + ("\"" + (space + rest)))
  {
  }

  lemma ReadsQuoted(value: string, space: string, rest: string, tail: string, s: State)
    requires IsBlank(space) && '\n' !in space && '\r' !in space && FieldEnds(rest) && tail == space + rest
    requires s.field == "" && !s.quoted && !s.closedQuote
    ensures Scan("\"" + (DoubleQuotes(value) + ("\"" + tail)), s)
            == Scan(rest, s.(field := value, closedQuote := true))
  {
    ScanOpeningQuote(DoubleQuotes(value) + ("\"" + tail), s);
    NotAQuote(space, rest);
    ScanDoubled(value, tail, s.(quoted := true));
    assert s.field + value == value;
    SkipsSpace(space, rest, s.(field := value, closedQuote := true));
  }

  lemma ReadsField(value: string, style: Style, rest: string, s: State)
    requires CanWrite(value, style) && FieldEnds(rest) && s.field == "" && !s.quoted && !s.closedQuote
    ensures Scan(WriteField(value, style) + rest, s) == Scan(rest, s.(field := value, closedQuote := style.Quoted?))
  {
    if style.Plain? {
      assert s.field + value == value;
      ScanPlain(value, rest, s);
    } else {
      QuotedThen(value, style.space, rest);
      ReadsQuoted(value, style.space, rest, style.space + rest, s);
    }
  }

  lemma ReadsFirstField(line: Line, rest: string, s: State)
    requires CanWriteLine(line) && |line| > 1 && s.field == "" && !s.quoted && !s.closedQuote
    ensures Scan(WriteLine(line) + rest, s)
            == Scan(WriteLine(line[1..]) + rest, s.(record := s.record + [line[0].value]))
  {
    var first, tail := WriteField(line[0].value, line[0].style), WriteLine(line[1..]) + rest;
    assert WriteLine(line) + rest == first + ("," + tail);
    ReadsField(line[0].value, line[0].style, "," + tail, s);
    ScanComma(tail, s.(field := line[0].value, closedQuote := line[0].style.Quoted?));
  }

  lemma FirstAndRest(line: Line, record: Record)
    requires |line| > 1
    ensures record + [line[0].value] + RecordOf(line[1..])[..|line| - 2] == record + RecordOf(line)[..|line| - 1]
  {
  }

  /** Where the reader stands after a line, just before its last field is pushed. */
  function AfterLine(line: Line, s: State): State
    requires |line| > 0
  {
    var last := |line| - 1;
    s.(record := s.record + RecordOf(line)[..last], field := line[last].value, closedQuote := line[last].style.Quoted?)
  }

  lemma {:induction false} ReadsLine(line: Line, rest: string, s: State)
    requires CanWriteLine(line) && (rest == "" || EndsRecord(rest[0]))
    requires s.field == "" && !s.quoted && !s.closedQuote
    ensures Scan(WriteLine(line) + rest, s) == Scan(rest, AfterLine(line, s))
    decreases |line|
  {
    if |line| == 1 {
      ReadsField(line[0].value, line[0].style, rest, s);
      assert s.record + RecordOf(line)[..0] == s.record;
    } else {
      ReadsFirstField(line, rest, s);
      ReadsLine(line[1..], rest, s.(record := s.record + [line[0].value]));
      FirstAndRest(line, s.record);
    }
  }

  lemma ReadsEndOfLine(end: string, rest: string, s: State)
    requires IsEnd(end) && (end == "\r" ==> rest == "" || rest[0] != '\n') && !s.quoted
    ensures Scan(end + rest, s) == Scan(rest, PushRecord(s))
  {
    assert (end + rest)[|end|..] == rest && EndLength(end + rest) == |end|;
  }

  lemma WholeRecord(line: Line)
    requires |line| > 0
    ensures RecordOf(line)[..|line| - 1] + [line[|line| - 1].value] == RecordOf(line)
  {
  }

  /** A record of one empty field is not pushed at the end of the text, and dropped as blank anyway. */
  lemma LastRecord(records: seq<Record>, line: Line)
    requires |line| > 0
    ensures var front, last := RecordOf(line)[..|line| - 1], line[|line| - 1].value;
            WithoutBlanks(if |last| > 0 || |front| > 0 then records + [front + [last]] else records)
            == WithoutBlanks(records + [RecordOf(line)])
  {
    WholeRecord(line);
    WithoutBlanksConcat(records, [RecordOf(line)]);
    if |line| == 1 && line[0].value == "" {
      assert IsBlankRecord(RecordOf(line)) && [RecordOf(line)][1..] == [];
      assert WithoutBlanks(records) + [] == WithoutBlanks(records);
    }
  }

  /** The reader at the beginning of a line. */
  predicate IsFresh(s: State) {
    s.field == "" && s.record == [] && !s.quoted && !s.closedQuote
  }

  lemma ReadsWholeLine(line: Line, end: string, rest: string, s: State)
    requires CanWriteLine(line) && IsEnd(end) && (end == "\r" ==> rest == "" || rest[0] != '\n') && IsFresh(s)
    ensures Scan(WriteLine(line) + (end + rest), s) == Scan(rest, s.(records := s.records + [RecordOf(line)]))
  {
    ReadsLine(line, end + rest, s);
    ReadsEndOfLine(end, rest, AfterLine(line, s));
    WholeRecord(line);
    assert [] + RecordOf(line)[..|line| - 1] == RecordOf(line)[..|line| - 1];
  }

  lemma ReadsLastLine(text: string, line: Line, s: State)
    requires CanWriteLine(line) && text == WriteLine(line) && IsFresh(s)
    ensures Scan(text, s).Ok? && !Scan(text, s).value.quoted
    ensures WithoutBlanks(AllRecords(Scan(text, s).value)) == WithoutBlanks(s.records + [RecordOf(line)])
  {
    assert text == text + "";
    ReadsLine(line, "", s);
    assert [] + RecordOf(line)[..|line| - 1] == RecordOf(line)[..|line| - 1];
    LastRecord(s.records, line);
  }

  lemma FirstRecord(lines: seq<Line>, records: seq<Record>)
    requires |lines| > 1
    ensures records + [RecordOf(lines[0])] + RecordsOf(lines[1..]) == records + RecordsOf(lines)
  {
  }

  /** What follows the first of several lines. */
  lemma NextLines(text: string, lines: seq<Line>) returns (end: string, rest: string)
    requires Writes(text, lines) && |lines| > 1
    ensures CanWriteLine(lines[0]) && IsEnd(end) && (end == "\r" ==> rest == "" || rest[0] != '\n')
    ensures text == WriteLine(lines[0]) + (end + rest) && Writes(rest, lines[1..])
  {
    end, rest :| IsEnd(end) && (end == "\r" ==> rest == "" || rest[0] != '\n')
                 && text == WriteLine(lines[0]) + (end + rest) && Writes(rest, lines[1..]);
  }

  lemma OnlyLine(text: string, lines: seq<Line>)
    requires Writes(text, lines) && |lines| == 1
    ensures CanWriteLine(lines[0]) && text == WriteLine(lines[0]) && RecordsOf(lines) == [RecordOf(lines[0])]
  {
  }

  lemma {:induction false} ReadsLines(text: string, lines: seq<Line>, s: State)
    requires lines != [] && Writes(text, lines) && IsFresh(s)
    ensures Scan(text, s).Ok? && !Scan(text, s).value.quoted
    ensures WithoutBlanks(AllRecords(Scan(text, s).value)) == WithoutBlanks(s.records + RecordsOf(lines))
    decreases |lines|
  {
    if |lines| == 1 {
      OnlyLine(text, lines);
      ReadsLastLine(text, lines[0], s);
    } else {
      var end, rest := NextLines(text, lines);
      ReadsWholeLine(lines[0], end, rest, s);
      ReadsLines(rest, lines[1..], s.(records := s.records + [RecordOf(lines[0])]));
      FirstRecord(lines, s.records);
    }
  }

  /**
   However records are written, quoting any field or none that needs no quotes, with white space after closing
   quotes, and with any line ends, they are read back, less the blank ones.
   */
  lemma EveryStyleIsRead(text: string, lines: seq<Line>)
    requires Writes(text, lines)
    ensures Parse(text) == Ok(WithoutBlanks(RecordsOf(lines)))
  {
    ReadsLines(text, lines, START);
    assert START.records + RecordsOf(lines) == RecordsOf(lines);
  }
}
