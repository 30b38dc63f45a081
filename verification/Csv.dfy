/**
 The hand-written CSV reader and the printer that must be undone by it. The dialect is that
 of section 2 of RFC 4180, except that white space may follow a closing quote, a bare
 carriage return or line feed ends a record, and blank records are dropped.
 */
module Csv {
  import opened Wrappers
  import opened Text

  type Record = seq<string>

  datatype CsvError = MalformedQuoting | UnclosedQuote

  // ----- reading -----

  /** The reader between two characters. */
  datatype State = State(records: seq<Record>, record: Record, field: string, quoted: bool, closedQuote: bool)

  const START := State([], [], "", false, false)

  predicate EndsRecord(c: char) {
    c == '\n' || c == '\r'
  }

  /** How many characters a record end takes: a carriage return swallows the line feed after it. */
  function EndLength(text: string): nat
    requires text != ""
  {
    if text[0] == '\r' && |text| > 1 && text[1] == '\n' then 2 else 1
  }

  function PushField(s: State): State {
    s.(record := s.record + [s.field], field := "", closedQuote := false)
  }

  function PushRecord(s: State): State {
    s.(records := s.records + [s.record + [s.field]], record := [], field := "", closedQuote := false)
  }

  /** What reading the rest of the text makes of the state. */
  function Scan(text: string, s: State): Result<State, CsvError>
    decreases |text|
  {
    if text == "" then Ok(s)
    else
      var c := text[0];
      if s.quoted then
        if c != '"' then Scan(text[1..], s.(field := s.field + [c]))
        else if |text| > 1 && text[1] == '"' then Scan(text[2..], s.(field := s.field + ['"']))
        else Scan(text[1..], s.(quoted := false, closedQuote := true))
      else if s.closedQuote then
        if c == ',' then Scan(text[1..], PushField(s))
        else if EndsRecord(c) then Scan(text[EndLength(text)..], PushRecord(s))
        else if !IsSpace(c) then Err(MalformedQuoting)
        else Scan(text[1..], s)
      else if c == '"' then
        if |s.field| > 0 then Err(MalformedQuoting) else Scan(text[1..], s.(quoted := true))
      else if c == ',' then Scan(text[1..], PushField(s))
      else if EndsRecord(c) then Scan(text[EndLength(text)..], PushRecord(s))
      else Scan(text[1..], s.(field := s.field + [c]))
  }

  predicate IsBlankRecord(record: Record) {
    forall i | 0 <= i < |record| :: IsBlank(record[i])
  }

  function WithoutBlanks(records: seq<Record>): seq<Record> {
    if records == [] then []
    else if IsBlankRecord(records[0]) then WithoutBlanks(records[1..])
    else [records[0]] + WithoutBlanks(records[1..])
  }

  /** All records read, once the text has ended in state `s`. */
  function AllRecords(s: State): seq<Record> {
    if |s.field| > 0 || |s.record| > 0 then s.records + [s.record + [s.field]] else s.records
  }

  function Parse(csv: string): Result<seq<Record>, CsvError> {
    match Scan(csv, START)
    case Err(e) => Err(e)
    case Ok(s) => if s.quoted then Err(UnclosedQuote) else Ok(WithoutBlanks(AllRecords(s)))
  }

  /** The reader as the program runs it: one pass over the characters, looking one ahead. */
  method ParseCsvRecords(csv: string) returns (r: Result<seq<Record>, CsvError>)
    ensures r == Parse(csv)
  {
    var records: seq<Record> := [];
    var record: Record := [];
    var field := "";
    var quoted := false;
    var closedQuote := false;
    var index := 0;
    while index < |csv|
      invariant 0 <= index <= |csv|
      invariant Scan(csv, START) == Scan(csv[index..], State(records, record, field, quoted, closedQuote))
    {
      var character := csv[index];
      ghost var rest := csv[index..];
      if quoted {
        if character == '"' {
          if index + 1 < |csv| && csv[index + 1] == '"' {
            field := field + ['"'];
            index := index + 1;
          } else {
            quoted := false;
            closedQuote := true;
          }
        } else {
          field := field + [character];
        }
      } else if closedQuote {
        if character == ',' {
          record := record + [field];
          field := "";
          closedQuote := false;
        } else if character == '\n' || character == '\r' {
          if character == '\r' && index + 1 < |csv| && csv[index + 1] == '\n' { index := index + 1; }
          record := record + [field];
          records := records + [record];
          record := [];
          field := "";
          closedQuote := false;
        } else if !IsSpace(character) {
          return Err(MalformedQuoting);
        }
      } else if character == '"' {
        if |field| > 0 { return Err(MalformedQuoting); }
        quoted := true;
      } else if character == ',' {
        record := record + [field];
        field := "";
      } else if character == '\n' || character == '\r' {
        if character == '\r' && index + 1 < |csv| && csv[index + 1] == '\n' { index := index + 1; }
        record := record + [field];
        records := records + [record];
        record := [];
        field := "";
      } else {
        field := field + [character];
      }
      index := index + 1;
      assert csv[index..] == rest[1..] || (|rest| > 1 && csv[index..] == rest[2..]);
    }
    if quoted { return Err(UnclosedQuote); }
    if |field| > 0 || |record| > 0 {
      record := record + [field];
      records := records + [record];
    }
    r := Ok(WithoutBlanks(records));
  }

  // ----- printing -----

  predicate NeedsQuotes(value: string) {
    '"' in value || ',' in value || '\r' in value || '\n' in value
  }

  function DoubleQuotes(value: string): string {
    if value == "" then ""
    else (if value[0] == '"' then "\"\"" else [value[0]]) + DoubleQuotes(value[1..])
  }

  function CsvEscape(value: string): string {
    if NeedsQuotes(value) then "\"" + DoubleQuotes(value) + "\"" else value
  }

  function EscapeAll(record: Record): seq<string> {
    seq(|record|, i requires 0 <= i < |record| => CsvEscape(record[i]))
  }

  function PrintRecord(record: Record): string {
    Join(EscapeAll(record), ",")
  }

  function PrintAll(records: seq<Record>): seq<string> {
    seq(|records|, i requires 0 <= i < |records| => PrintRecord(records[i]))
  }

  function Print(records: seq<Record>): string {
    Join(PrintAll(records), "\n")
  }

  // ----- reading back what was printed -----

  /** A separator, or nothing: what may follow a printed field. */
  predicate EndsField(rest: string) {
    rest == "" || rest[0] == ',' || rest[0] == '\n'
  }

  lemma {:induction false} ScanPlain(value: string, rest: string, s: State)
    requires !NeedsQuotes(value) && !s.quoted && !s.closedQuote
    ensures Scan(value + rest, s) == Scan(rest, s.(field := s.field + value))
  {
    if value == "" {
      assert value + rest == rest && s.field + value == s.field;
    } else {
      var s' := s.(field := s.field + [value[0]]);
      assert (value + rest)[1..] == value[1..] + rest;
      ScanPlain(value[1..], rest, s');
      assert s'.field + value[1..] == s.field + value;
    }
  }

  lemma {:induction false} ScanDoubled(value: string, rest: string, s: State)
    requires s.quoted && (rest == "" || rest[0] != '"')
    ensures Scan(DoubleQuotes(value) + ("\"" + rest), s)
            == Scan(rest, s.(field := s.field + value, quoted := false, closedQuote := true))
  {
    var text := DoubleQuotes(value) + ("\"" + rest);
    if value == "" {
      assert text[1..] == rest && s.field + value == s.field;
    } else {
      var s' := s.(field := s.field + [value[0]]);
      assert text[if value[0] == '"' then 2 else 1..] == DoubleQuotes(value[1..]) + ("\"" + rest);
      ScanDoubled(value[1..], rest, s');
      assert s'.field + value[1..] == s.field + value;
    }
  }

  /** Where the reader stands after one printed field. */
  function AfterField(value: string, s: State): State {
    s.(field := value, closedQuote := NeedsQuotes(value))
  }

  lemma ScanOpeningQuote(body: string, s: State)
    requires s.field == "" && !s.quoted && !s.closedQuote
    ensures Scan("\"" + body, s) == Scan(body, s.(quoted := true))
  {
    assert ("\"" + body)[1..] == body;
  }

  lemma ScanComma(rest: string, s: State)
    requires !s.quoted
    ensures Scan("," + rest, s) == Scan(rest, PushField(s))
  {
    assert ("," + rest)[1..] == rest;
  }

  lemma ScanNewline(rest: string, s: State)
    requires !s.quoted
    ensures Scan("\n" + rest, s) == Scan(rest, PushRecord(s))
  {
    assert ("\n" + rest)[1..] == rest;
  }

  lemma ScanField(value: string, rest: string, s: State)
    requires s.field == "" && !s.quoted && !s.closedQuote && EndsField(rest)
    ensures Scan(CsvEscape(value) + rest, s) == Scan(rest, AfterField(value, s))
  {
    assert s.field + value == value;
    if NeedsQuotes(value) {
      var body := DoubleQuotes(value) + ("\"" + rest);
      assert CsvEscape(value) + rest == "\"" + body;
      ScanOpeningQuote(body, s);
      ScanDoubled(value, rest, s.(quoted := true));
    } else {
      ScanPlain(value, rest, s);
    }
  }

  lemma ScanFirstField(record: Record, rest: string, s: State)
    requires |record| > 1 && s.field == "" && !s.quoted && !s.closedQuote
    ensures Scan(PrintRecord(record) + rest, s)
            == Scan(PrintRecord(record[1..]) + rest, PushField(AfterField(record[0], s)))
  {
    var first, tail := CsvEscape(record[0]), record[1..];
    assert EscapeAll(record) == [first] + EscapeAll(tail);
    var after := "," + (PrintRecord(tail) + rest);
    assert PrintRecord(record) + rest == first + after;
    ScanField(record[0], after, s);
    ScanComma(PrintRecord(tail) + rest, AfterField(record[0], s));
  }

  /** Reading a printed record stops just before its last field is pushed. */
  lemma {:induction false} ScanRecord(record: Record, rest: string, s: State)
    requires |record| > 0 && s.field == "" && !s.quoted && !s.closedQuote
    requires rest == "" || rest[0] == '\n'
    ensures var last := |record| - 1;
            Scan(PrintRecord(record) + rest, s)
                == Scan(rest, AfterField(record[last], s.(record := s.record + record[..last])))
  {
    if |record| == 1 {
      assert EscapeAll(record) == [CsvEscape(record[0])];
      ScanField(record[0], rest, s);
      assert s.record + record[..0] == s.record;
    } else {
      var tail := record[1..];
      ScanFirstField(record, rest, s);
      var s' := PushField(AfterField(record[0], s));
      ScanRecord(tail, rest, s');
      assert s'.record + tail[..|tail| - 1] == s.record + record[..|record| - 1];
    }
  }

  lemma {:induction false} WithoutBlanksConcat(a: seq<Record>, b: seq<Record>)
    ensures WithoutBlanks(a + b) == WithoutBlanks(a) + WithoutBlanks(b)
  {
    if a == [] {
      assert a + b == b;
    } else {
      assert (a + b)[1..] == a[1..] + b;
      WithoutBlanksConcat(a[1..], b);
    }
  }

  /** Where the reader stands after one printed record, before the line break. */
  function AfterRecord(record: Record, s: State): State
    requires |record| > 0
  {
    AfterField(record[|record| - 1], s.(record := s.record + record[..|record| - 1]))
  }

  lemma LastRecord(record: Record, s: State)
    requires |record| > 0 && s.record == [] && s.field == "" && !s.quoted && !s.closedQuote
    ensures WithoutBlanks(AllRecords(AfterRecord(record, s))) == WithoutBlanks(s.records) + WithoutBlanks([record])
  {
    var stop := AfterRecord(record, s);
    assert stop.record == record[..|record| - 1] && stop.field == record[|record| - 1];
    assert stop.record + [stop.field] == record;
    if |stop.field| > 0 || |stop.record| > 0 {
      WithoutBlanksConcat(s.records, [record]);
    } else {
      assert |record| == 1 && record[0] == "";
      BlankAlone(record);
      assert WithoutBlanks(s.records) + [] == WithoutBlanks(s.records);
    }
  }

  lemma BlankAlone(record: Record)
    requires IsBlankRecord(record)
    ensures WithoutBlanks([record]) == []
  {
  }

  lemma {:induction false} ScanRecords(records: seq<Record>, s: State)
    requires |records| > 0 && forall i | 0 <= i < |records| :: |records[i]| > 0
    requires s.record == [] && s.field == "" && !s.quoted && !s.closedQuote
    ensures var r := Scan(Print(records), s);
            r.Ok? && !r.value.quoted && WithoutBlanks(AllRecords(r.value))
                == WithoutBlanks(s.records) + WithoutBlanks(records)
  {
    var first := PrintRecord(records[0]);
    var stop := AfterRecord(records[0], s);
    if |records| == 1 {
      assert PrintAll(records) == [first] && first + "" == first && records == [records[0]];
      ScanRecord(records[0], "", s);
      LastRecord(records[0], s);
    } else {
      var tail := records[1..];
      assert PrintAll(records) == [first] + PrintAll(tail);
      assert Print(records) == first + ("\n" + Print(tail));
      ScanRecord(records[0], "\n" + Print(tail), s);
      ScanNewline(Print(tail), stop);
      ScanRecords(tail, PushRecord(stop));
      PushedRecords(records, s);
    }
  }

  lemma PushedRecords(records: seq<Record>, s: State)
    requires |records| > 0 && |records[0]| > 0 && s.record == []
    ensures WithoutBlanks(PushRecord(AfterRecord(records[0], s)).records) + WithoutBlanks(records[1..])
            == WithoutBlanks(s.records) + WithoutBlanks(records)
  {
    var stop := AfterRecord(records[0], s);
    assert stop.record + [stop.field] == records[0];
    MoveAcross(s.records, records[0], records[1..]);
    assert [records[0]] + records[1..] == records;
  }

  lemma MoveAcross(a: seq<Record>, r: Record, b: seq<Record>)
    ensures WithoutBlanks(a + [r]) + WithoutBlanks(b) == WithoutBlanks(a) + WithoutBlanks([r] + b)
  {
    WithoutBlanksConcat(a, [r]);
    WithoutBlanksConcat([r], b);
  }

  /** Printing and reading back is the identity, up to dropping blank records. */
  lemma PrintThenParse(records: seq<Record>)
    requires forall i | 0 <= i < |records| :: |records[i]| > 0
    ensures Parse(Print(records)) == Ok(WithoutBlanks(records))
  {
    if records == [] {
      assert PrintAll(records) == [];
    } else {
      ScanRecords(records, START);
      assert WithoutBlanks([]) + WithoutBlanks(records) == WithoutBlanks(records);
    }
  }

  // ----- what reading yields -----

  lemma {:induction false} ScanYieldsRecords(text: string, s: State)
    requires forall i | 0 <= i < |s.records| :: |s.records[i]| > 0
    ensures Scan(text, s).Ok? ==> forall i | 0 <= i < |Scan(text, s).value.records| ::
              |Scan(text, s).value.records[i]| > 0
    decreases |text|
  {
    if text == "" {
    } else {
      var c := text[0];
      if s.quoted {
        if c != '"' { ScanYieldsRecords(text[1..], s.(field := s.field + [c])); }
        else if |text| > 1 && text[1] == '"' { ScanYieldsRecords(text[2..], s.(field := s.field + ['"'])); }
        else { ScanYieldsRecords(text[1..], s.(quoted := false, closedQuote := true)); }
      } else if EndsRecord(c) {
        ScanYieldsRecords(text[EndLength(text)..], PushRecord(s));
      } else if c == ',' {
        ScanYieldsRecords(text[1..], PushField(s));
      } else if s.closedQuote {
        ScanYieldsRecords(text[1..], s);
      } else if c == '"' {
        ScanYieldsRecords(text[1..], s.(quoted := true));
      } else {
        ScanYieldsRecords(text[1..], s.(field := s.field + [c]));
      }
    }
  }

  lemma {:induction false} WithoutBlanksIsSubsequence(records: seq<Record>)
    ensures forall r | r in WithoutBlanks(records) :: r in records && !IsBlankRecord(r)
    ensures WithoutBlanks(WithoutBlanks(records)) == WithoutBlanks(records)
  {
    if records == [] {
    } else {
      WithoutBlanksIsSubsequence(records[1..]);
    }
  }

  /** Every record read has a field, and one that is not blank. */
  lemma ParsedRecordsAreFilled(csv: string)
    requires Parse(csv).Ok?
    ensures forall r | r in Parse(csv).value :: |r| > 0 && !IsBlankRecord(r)
  {
    ScanYieldsRecords(csv, START);
    var s := Scan(csv, START).value;
    WithoutBlanksIsSubsequence(AllRecords(s));
  }

  /** Printing an accepted file in canonical form and reading that changes nothing. */
  lemma CanonicalFormIsStable(csv: string)
    requires Parse(csv).Ok?
    ensures Parse(Print(Parse(csv).value)) == Parse(csv)
  {
    var records := Parse(csv).value;
    ParsedRecordsAreFilled(csv);
    assert forall i | 0 <= i < |records| :: records[i] in records;
    PrintThenParse(records);
    WithoutBlanksIsSubsequence(AllRecords(Scan(csv, START).value));
  }
}
