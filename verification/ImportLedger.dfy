/** Imported rows in the store: what occurrence-numbered fingerprints keep, and what they keep out. */
module ImportLedger {
  import opened Wrappers
  import opened Text
  import opened Numerals
  import opened Calendar
  import Csv
  import opened ImportCells
  import opened TransactionImport

  type Keys = seq<Option<string>>

  // ----- fingerprints -----

  lemma DecimalHasNoBar(n: nat)
    ensures '|' !in Decimal(n)
  {
  }

  /** A fingerprint determines the canonical text and the occurrence, even when the note has bars of its own. */
  lemma FingerprintDetermines(c: string, k: nat, d: string, n: nat)
    requires FingerprintOf(c, k) == FingerprintOf(d, n)
    ensures c == d && k == n
  {
    DecimalHasNoBar(k);
    DecimalHasNoBar(n);
    assert c + ("|" + Decimal(k)) == c + ['|'] + Decimal(k);
    assert d + ("|" + Decimal(n)) == d + ['|'] + Decimal(n);
    SplitAtLast('|', c, d, Decimal(k), Decimal(n));
    DecimalInjective(k, n);
  }

  lemma SameLengthFronts(a: string, b: string, s: string, t: string)
    requires |a| == |b| && a + s == b + t
    ensures a == b && s == t
  {
    assert (a + s)[..|a|] == a && (b + t)[..|b|] == b && (a + s)[|a|..] == s && (b + t)[|b|..] == t;
  }

  lemma DirectionTextsDiffer(d: Direction, e: Direction)
    requires DirectionText(d) == DirectionText(e)
    ensures d == e && '|' !in DirectionText(d)
  {
    assert "in"[0] == 'i' && "out"[0] == 'o';
  }

  lemma SplitAtBar(a: string, b: string, s: string, t: string)
    requires '|' !in a && '|' !in b && a + ("|" + s) == b + ("|" + t)
    ensures a == b && s == t
  {
    assert a + ("|" + s) == a + ['|'] + s && b + ("|" + t) == b + ['|'] + t;
    SplitAtFirst('|', a, b, s, t);
  }

  lemma TailDetermines(d: Direction, m: nat, note: string, e: Direction, n: nat, other: string)
    requires DirectionText(d) + ("|" + (Decimal(m) + ("|" + note)))
             == DirectionText(e) + ("|" + (Decimal(n) + ("|" + other)))
    ensures d == e && m == n && note == other
  {
    DirectionTextsDiffer(d, d);
    DirectionTextsDiffer(e, e);
    SplitAtBar(DirectionText(d), DirectionText(e), Decimal(m) + ("|" + note), Decimal(n) + ("|" + other));
    DirectionTextsDiffer(d, e);
    DecimalHasNoBar(m);
    DecimalHasNoBar(n);
    SplitAtBar(Decimal(m), Decimal(n), note, other);
    DecimalInjective(m, n);
  }

  predicate SameTransaction(f: Fields, g: Fields, lower: string -> string) {
    && f.occurredAt == g.occurredAt && f.direction == g.direction && f.amountKobo == g.amountKobo
    && lower(f.note) == lower(g.note)
  }

  predicate HasRealDate(f: Fields) {
    f.occurredAt.Some? && IsDate(f.occurredAt.value) && f.occurredAt.value.year < 10000
  }

  /** Rows share a canonical text exactly when they agree on day, direction, amount and lower-cased note. */
  lemma CanonicalTextDetermines(f: Fields, g: Fields, lower: string -> string)
    requires IsValid(f) && IsValid(g) && HasRealDate(f) && HasRealDate(g)
    ensures CanonicalText(f, lower) == CanonicalText(g, lower) <==> SameTransaction(f, g, lower)
  {
    if CanonicalText(f, lower) == CanonicalText(g, lower) {
      CanonicalTailsAgree(IsoDate(f.occurredAt.value), f.direction.value, f.amountKobo.value, lower(f.note),
                          IsoDate(g.occurredAt.value), g.direction.value, g.amountKobo.value, lower(g.note));
      IsoDateInjective(f.occurredAt.value, g.occurredAt.value);
    }
  }

  lemma CanonicalTailsAgree(day: string, d: Direction, m: nat, note: string, day': string, e: Direction, n: nat,
                            other: string)
    requires |day| == |day'|
    requires (day + "T12:00:00.000Z") + ("|" + (DirectionText(d) + ("|" + (Decimal(m) + ("|" + note)))))
             == (day' + "T12:00:00.000Z") + ("|" + (DirectionText(e) + ("|" + (Decimal(n) + ("|" + other)))))
    ensures day == day' && d == e && m == n && note == other
  {
    var x, y := DirectionText(d) + ("|" + (Decimal(m) + ("|" + note))),
        DirectionText(e) + ("|" + (Decimal(n) + ("|" + other)));
    var noon := "T12:00:00.000Z";
    SameLengthFronts(day + noon, day' + noon, "|" + x, "|" + y);
    SameLengthFronts(day, day', noon, noon);
    SameLengthFronts("|", "|", x, y);
    TailDetermines(d, m, note, e, n, other);
  }

  /** How often a canonical text occurs among the keys of a file. */
  function CountOf(keys: Keys, c: string): nat {
    multiset(keys)[Some(c)]
  }

  predicate FileHas(keys: Keys, fp: Fingerprint) {
    exists i | 0 <= i < |keys| :: FingerprintAt(keys, i) == Some(fp)
  }

  lemma OccurrenceIsCounted(keys: Keys, i: nat)
    requires i < |keys|
    ensures 1 <= Occurrence(keys, i) <= multiset(keys)[keys[i]]
  {
    assert keys[..i + 1] == keys[..i] + [keys[i]];
    assert keys == keys[..i + 1] + keys[i + 1..];
  }

  lemma LaterOccursMore(keys: Keys, i: nat, j: nat)
    requires i < j < |keys| && keys[i] == keys[j]
    ensures Occurrence(keys, i) < Occurrence(keys, j)
  {
    assert keys[..j + 1] == keys[..j] + [keys[j]];
    assert keys[..j] == keys[..i + 1] + keys[i + 1..j];
  }

  /** No two rows of one file share a fingerprint. */
  lemma FingerprintsDiffer(keys: Keys, i: nat, j: nat)
    requires i < j < |keys| && keys[i].Some? && keys[j].Some?
    ensures FingerprintAt(keys, i) != FingerprintAt(keys, j)
  {
    if FingerprintAt(keys, i) == FingerprintAt(keys, j) {
      FingerprintDetermines(keys[i].value, Occurrence(keys, i), keys[j].value, Occurrence(keys, j));
      LaterOccursMore(keys, i, j);
    }
  }

  lemma {:induction false} OccurrenceExists(keys: Keys, n: nat, c: string, k: nat)
    requires n <= |keys| && 1 <= k <= multiset(keys[..n])[Some(c)]
    ensures exists i | 0 <= i < n :: keys[i] == Some(c) && Occurrence(keys, i) == k
  {
    assert n > 0;
    assert keys[..n] == keys[..n - 1] + [keys[n - 1]];
    if k <= multiset(keys[..n - 1])[Some(c)] {
      OccurrenceExists(keys, n - 1, c, k);
    } else {
      assert Occurrence(keys, n - 1) == k;
    }
  }

  /** The fingerprints of a file number the repeats of each canonical text from one to its count. */
  lemma FileFingerprints(keys: Keys, c: string, k: nat)
    ensures FileHas(keys, FingerprintOf(c, k)) <==> 1 <= k <= CountOf(keys, c)
  {
    if 1 <= k <= CountOf(keys, c) {
      assert keys[..|keys|] == keys;
      OccurrenceExists(keys, |keys|, c, k);
      var i :| 0 <= i < |keys| && keys[i] == Some(c) && Occurrence(keys, i) == k;
      assert FingerprintAt(keys, i) == Some(FingerprintOf(c, k));
    }
    forall i | 0 <= i < |keys| && FingerprintAt(keys, i) == Some(FingerprintOf(c, k))
      ensures 1 <= k <= CountOf(keys, c)
    {
      FingerprintDetermines(keys[i].value, Occurrence(keys, i), c, k);
      OccurrenceIsCounted(keys, i);
    }
  }

  // ----- the store -----

  /** A stored row belongs to a user and has one fingerprint there: the pair is unique. */
  datatype Slot = Slot(user: string, fingerprint: Fingerprint)

  datatype Tx = Tx(goal: Option<string>, fields: Fields)

  type Table = map<Slot, Tx>

  predicate AllFingerprinted(rows: seq<ParsedRow>) {
    forall i | 0 <= i < |rows| :: rows[i].fingerprint.Some?
  }

  function SlotOf(user: string, row: ParsedRow): Slot
    requires row.fingerprint.Some?
  {
    Slot(user, row.fingerprint.value)
  }

  function InsertRow(t: Table, user: string, goal: Option<string>, row: ParsedRow): Table
    requires row.fingerprint.Some?
  {
    if SlotOf(user, row) in t then t else t[SlotOf(user, row) := Tx(goal, row.fields)]
  }

  /** `createMany` with duplicates skipped. */
  function InsertAll(t: Table, user: string, goal: Option<string>, rows: seq<ParsedRow>): Table
    requires AllFingerprinted(rows)
  {
    if rows == [] then t else InsertRow(InsertAll(t, user, goal, rows[..|rows| - 1]), user, goal, rows[|rows| - 1])
  }

  predicate InRows(rows: seq<ParsedRow>, fp: Fingerprint) {
    exists i | 0 <= i < |rows| :: rows[i].fingerprint == Some(fp)
  }

  lemma {:induction false} InsertedSlots(t: Table, user: string, goal: Option<string>, rows: seq<ParsedRow>, slot: Slot)
    requires AllFingerprinted(rows)
    ensures slot in InsertAll(t, user, goal, rows)
            <==> slot in t || (slot.user == user && InRows(rows, slot.fingerprint))
    ensures slot in t ==> InsertAll(t, user, goal, rows)[slot] == t[slot]
  {
    if rows == [] {
    } else {
      var front, last := rows[..|rows| - 1], rows[|rows| - 1];
      InsertedSlots(t, user, goal, front, slot);
      assert forall i | 0 <= i < |front| :: front[i] == rows[i];
    }
  }

  /** Rows already stored are skipped: importing them again changes nothing. */
  lemma {:induction false} StoredRowsAreSkipped(t: Table, user: string, goal: Option<string>, rows: seq<ParsedRow>)
    requires AllFingerprinted(rows) && forall i | 0 <= i < |rows| :: SlotOf(user, rows[i]) in t
    ensures InsertAll(t, user, goal, rows) == t
  {
    if rows == [] {
    } else {
      StoredRowsAreSkipped(t, user, goal, rows[..|rows| - 1]);
    }
  }

  /** Importing rows a second time, under any goal, adds nothing. */
  lemma ReimportAddsNothing(t: Table, user: string, goal: Option<string>, again: Option<string>, rows: seq<ParsedRow>)
    requires AllFingerprinted(rows)
    ensures InsertAll(InsertAll(t, user, goal, rows), user, again, rows) == InsertAll(t, user, goal, rows)
  {
    forall i | 0 <= i < |rows| ensures SlotOf(user, rows[i]) in InsertAll(t, user, goal, rows) {
      InsertedSlots(t, user, goal, rows, SlotOf(user, rows[i]));
    }
    StoredRowsAreSkipped(InsertAll(t, user, goal, rows), user, again, rows);
  }

  predicate DistinctFingerprints(rows: seq<ParsedRow>) {
    forall i, j | 0 <= i < j < |rows| :: rows[i].fingerprint != rows[j].fingerprint
  }

  lemma {:induction false} NewRowsAreAdded(t: Table, user: string, goal: Option<string>, rows: seq<ParsedRow>)
    requires AllFingerprinted(rows) && DistinctFingerprints(rows) && forall i | 0 <= i < |rows| ::
               SlotOf(user, rows[i]) !in t
    ensures |InsertAll(t, user, goal, rows)| == |t| + |rows|
  {
    if rows == [] {
    } else {
      var front, last := rows[..|rows| - 1], rows[|rows| - 1];
      NewRowsAreAdded(t, user, goal, front);
      InsertedSlots(t, user, goal, front, SlotOf(user, last));
    }
  }

  // ----- importing all valid rows of files -----

  function IsImportable(): ParsedRow -> bool {
    (row: ParsedRow) => row.errors == []
  }

  function ValidRows(fs: seq<Fields>, lower: string -> string): seq<ParsedRow> {
    Filter(IsImportable(), RowsOf(fs, lower))
  }

  lemma ValidRowIsOfFile(fs: seq<Fields>, lower: string -> string, i: nat) returns (n: nat)
    requires i < |ValidRows(fs, lower)|
    ensures n < |fs| && RowAt(fs, lower, n) == ValidRows(fs, lower)[i] && KeysOf(fs, lower)[n].Some?
  {
    var rows, row := RowsOf(fs, lower), ValidRows(fs, lower)[i];
    FilterIn(IsImportable(), rows, row);
    n :| 0 <= n < |rows| && rows[n] == row;
    ValidHasNoErrors(fs[n]);
  }

  lemma RowOfFileIsValid(fs: seq<Fields>, lower: string -> string, n: nat)
    requires n < |fs| && KeysOf(fs, lower)[n].Some?
    ensures RowAt(fs, lower, n) in ValidRows(fs, lower)
  {
    var rows := RowsOf(fs, lower);
    ValidHasNoErrors(fs[n]);
    FilterIn(IsImportable(), rows, rows[n]);
    assert rows[n] in rows;
  }

  lemma ValidRowsHaveFingerprints(fs: seq<Fields>, lower: string -> string, fp: Fingerprint)
    ensures AllFingerprinted(ValidRows(fs, lower))
    ensures InRows(ValidRows(fs, lower), fp) <==> FileHas(KeysOf(fs, lower), fp)
  {
    var valid, keys := ValidRows(fs, lower), KeysOf(fs, lower);
    forall i | 0 <= i < |valid|
      ensures valid[i].fingerprint.Some? && (valid[i].fingerprint == Some(fp) ==> FileHas(keys, fp))
    {
      var n := ValidRowIsOfFile(fs, lower, i);
      assert FingerprintAt(keys, n) == valid[i].fingerprint;
    }
    forall n | 0 <= n < |keys| && FingerprintAt(keys, n) == Some(fp) ensures InRows(valid, fp) {
      RowOfFileIsValid(fs, lower, n);
      var i :| 0 <= i < |valid| && valid[i] == RowAt(fs, lower, n);
    }
  }

  function ImportFile(t: Table, user: string, goal: Option<string>, fs: seq<Fields>, lower: string -> string): Table {
    ValidRowsHaveFingerprints(fs, lower, Sha256(""));
    InsertAll(t, user, goal, ValidRows(fs, lower))
  }

  function ImportFiles(t: Table, user: string, goal: Option<string>, files: seq<seq<Fields>>,
                       lower: string -> string): Table
  {
    if files == [] then t
    else ImportFile(ImportFiles(t, user, goal, files[..|files| - 1], lower), user, goal, files[|files| - 1], lower)
  }

  predicate SomeFileHas(files: seq<seq<Fields>>, lower: string -> string, fp: Fingerprint) {
    exists n | 0 <= n < |files| :: FileHas(KeysOf(files[n], lower), fp)
  }

  lemma ImportedFileSlots(t: Table, user: string, goal: Option<string>, fs: seq<Fields>, lower: string -> string,
                          slot: Slot)
    ensures slot in ImportFile(t, user, goal, fs, lower) <==>
        slot in t || (slot.user == user && FileHas(KeysOf(fs, lower), slot.fingerprint))
  {
    ValidRowsHaveFingerprints(fs, lower, slot.fingerprint);
    InsertedSlots(t, user, goal, ValidRows(fs, lower), slot);
  }

  lemma LastFileToo(files: seq<seq<Fields>>, lower: string -> string, fp: Fingerprint)
    requires files != []
    ensures SomeFileHas(files, lower, fp) <==>
        SomeFileHas(files[..|files| - 1], lower, fp) || FileHas(KeysOf(files[|files| - 1], lower), fp)
  {
    var front := files[..|files| - 1];
    assert forall n | 0 <= n < |front| :: front[n] == files[n];
  }

  lemma {:induction false} ImportedSlots(user: string, goal: Option<string>, files: seq<seq<Fields>>,
                                         lower: string -> string, slot: Slot)
    ensures slot in ImportFiles(map[], user, goal, files, lower) <==>
        slot.user == user && SomeFileHas(files, lower, slot.fingerprint)
  {
    if files == [] {
    } else {
      var front, last := files[..|files| - 1], files[|files| - 1];
      ImportedSlots(user, goal, front, lower, slot);
      ImportedFileSlots(ImportFiles(map[], user, goal, front, lower), user, goal, last, lower, slot);
      LastFileToo(files, lower, slot.fingerprint);
    }
  }

  function Largest(s: seq<nat>): nat {
    if s == [] then 0
    else
      var rest, last := Largest(s[..|s| - 1]), s[|s| - 1];
      if rest < last then last else rest
  }

  lemma {:induction false} LargestIsReached(s: seq<nat>, k: nat)
    requires k >= 1
    ensures k <= Largest(s) <==> exists n | 0 <= n < |s| :: k <= s[n]
  {
    if s == [] {
    } else {
      var front := s[..|s| - 1];
      LargestIsReached(front, k);
      assert forall n | 0 <= n < |front| :: front[n] == s[n];
    }
  }

  function CountsIn(files: seq<seq<Fields>>, lower: string -> string, c: string): seq<nat> {
    seq(|files|, n requires 0 <= n < |files| => CountOf(KeysOf(files[n], lower), c))
  }

  /** How often the file that has it most has a canonical text. */
  function MaxCount(files: seq<seq<Fields>>, lower: string -> string, c: string): nat {
    Largest(CountsIn(files, lower, c))
  }

  lemma SomeFileReaches(files: seq<seq<Fields>>, lower: string -> string, c: string, k: nat)
    ensures SomeFileHas(files, lower, FingerprintOf(c, k)) <==> 1 <= k <= MaxCount(files, lower, c)
  {
    var counts := CountsIn(files, lower, c);
    if k >= 1 { LargestIsReached(counts, k); }
    forall n | 0 <= n < |files| ensures FileHas(KeysOf(files[n], lower), FingerprintOf(c, k)) <==> 1 <= k <= counts[n] {
      FileFingerprints(KeysOf(files[n], lower), c, k);
    }
  }

  /**
   After importing all valid rows of any files, each canonical text is stored as often as the file that has it
   most.
   */
  lemma StoredIsMaximum(user: string, goal: Option<string>, files: seq<seq<Fields>>, lower: string -> string,
                        c: string, k: nat)
    ensures Slot(user, FingerprintOf(c, k)) in ImportFiles(map[], user, goal, files, lower) <==>
        1 <= k <= MaxCount(files, lower, c)
  {
    ImportedSlots(user, goal, files, lower, Slot(user, FingerprintOf(c, k)));
    SomeFileReaches(files, lower, c, k);
  }

  /** Nothing else is stored. */
  lemma StoredIsNumbered(user: string, goal: Option<string>, files: seq<seq<Fields>>, lower: string -> string,
                         slot: Slot)
    requires slot in ImportFiles(map[], user, goal, files, lower)
    ensures slot.user == user && exists c: string, k: nat ::
        slot.fingerprint == FingerprintOf(c, k) && 1 <= k <= MaxCount(files, lower, c)
  {
    ImportedSlots(user, goal, files, lower, slot);
    var n :| 0 <= n < |files| && FileHas(KeysOf(files[n], lower), slot.fingerprint);
    var keys := KeysOf(files[n], lower);
    var i :| 0 <= i < |keys| && FingerprintAt(keys, i) == Some(slot.fingerprint);
    StoredIsMaximum(user, goal, files, lower, keys[i].value, Occurrence(keys, i));
  }

  /** The rows of each file, without their order, and the files without theirs. */
  function Contents(files: seq<seq<Fields>>, lower: string -> string): set<multiset<Option<string>>> {
    set n | 0 <= n < |files| :: multiset(KeysOf(files[n], lower))
  }

  lemma ReorderedHas(files: seq<seq<Fields>>, others: seq<seq<Fields>>, lower: string -> string, fp: Fingerprint)
    requires Contents(files, lower) <= Contents(others, lower) && SomeFileHas(files, lower, fp)
    ensures SomeFileHas(others, lower, fp)
  {
    var n :| 0 <= n < |files| && FileHas(KeysOf(files[n], lower), fp);
    var keys := KeysOf(files[n], lower);
    var i :| 0 <= i < |keys| && FingerprintAt(keys, i) == Some(fp);
    assert multiset(keys) in Contents(others, lower);
    var m :| 0 <= m < |others| && multiset(KeysOf(others[m], lower)) == multiset(keys);
    FileFingerprints(keys, keys[i].value, Occurrence(keys, i));
    FileFingerprints(KeysOf(others[m], lower), keys[i].value, Occurrence(keys, i));
  }

  /** What is stored depends neither on the order of the rows in a file nor on the order or repetition of the files. */
  lemma OrderDoesNotMatter(user: string, goal: Option<string>, files: seq<seq<Fields>>, others: seq<seq<Fields>>,
                           lower: string -> string)
    requires Contents(files, lower) == Contents(others, lower)
    ensures ImportFiles(map[], user, goal, files, lower).Keys == ImportFiles(map[], user, goal, others, lower).Keys
  {
    forall slot: Slot
      ensures slot in ImportFiles(map[], user, goal, files, lower)
              <==> slot in ImportFiles(map[], user, goal, others, lower)
    {
      ImportedSlots(user, goal, files, lower, slot);
      ImportedSlots(user, goal, others, lower, slot);
      if SomeFileHas(files, lower, slot.fingerprint) { ReorderedHas(files, others, lower, slot.fingerprint); }
      if SomeFileHas(others, lower, slot.fingerprint) { ReorderedHas(others, files, lower, slot.fingerprint); }
    }
  }

  // ----- previewing and confirming -----

  datatype ConfirmError = GoalNotFound | Unreadable(error: ImportError) | NotImportable(rowNumbers: seq<nat>)

  datatype Imported = Imported(importedCount: nat, duplicateCount: nat)

  datatype Preview = Preview(rows: seq<ParsedRow>, readyCount: nat, duplicateCount: nat, invalidCount: nat)

  function Selects(ns: seq<nat>): ParsedRow -> bool {
    (row: ParsedRow) => row.rowNumber in ns
  }

  function HasErrors(): ParsedRow -> bool {
    (row: ParsedRow) => row.errors != []
  }

  function NumberOf(): ParsedRow -> nat {
    (row: ParsedRow) => row.rowNumber
  }

  function NotIn(ns: seq<nat>): nat -> bool {
    n => n !in ns
  }

  function Selected(rows: seq<ParsedRow>, ns: seq<nat>): seq<ParsedRow> {
    Filter(Selects(ns), rows)
  }

  function Missing(rows: seq<ParsedRow>, ns: seq<nat>): seq<nat> {
    Filter(NotIn(Map(NumberOf(), Selected(rows, ns))), ns)
  }

  /** The row numbers an import is refused for: those not in the file, then those of rows with errors. */
  function Refused(rows: seq<ParsedRow>, ns: seq<nat>): seq<nat> {
    Missing(rows, ns) + Map(NumberOf(), Filter(HasErrors(), Selected(rows, ns)))
  }

  predicate IsDuplicate(t: Table, user: string, row: ParsedRow) {
    row.fingerprint.Some? && SlotOf(user, row) in t
  }

  function Flagged(t: Table, user: string): ParsedRow -> ParsedRow {
    (row: ParsedRow) => row.(duplicate := IsDuplicate(t, user, row))
  }

  function IsReady(): ParsedRow -> bool {
    (row: ParsedRow) => row.errors == [] && !row.duplicate
  }

  function IsFlagged(): ParsedRow -> bool {
    (row: ParsedRow) => row.duplicate
  }

  function PreviewOf(t: Table, user: string, rows: seq<ParsedRow>): Preview {
    var flagged := Map(Flagged(t, user), rows);
    Preview(flagged, |Filter(IsReady(), flagged)|, |Filter(IsFlagged(), flagged)|, |Filter(HasErrors(), flagged)|)
  }

  lemma {:induction false} ThreeKinds(rows: seq<ParsedRow>)
    requires forall i | 0 <= i < |rows| && rows[i].duplicate :: rows[i].errors == []
    ensures |Filter(IsReady(), rows)| + |Filter(IsFlagged(), rows)| + |Filter(HasErrors(), rows)| == |rows|
  {
    if rows == [] {
    } else {
      ThreeKinds(rows[1..]);
    }
  }

  /** Every row of a file is counted once in its preview: as ready, as a duplicate or as invalid. */
  lemma PreviewCountsAddUp(t: Table, user: string, fs: seq<Fields>, lower: string -> string)
    ensures var p := PreviewOf(t, user, RowsOf(fs, lower));
            p.readyCount + p.duplicateCount + p.invalidCount == |p.rows| == |fs|
  {
    var rows := RowsOf(fs, lower);
    var flagged := Map(Flagged(t, user), rows);
    forall i | 0 <= i < |flagged| && flagged[i].duplicate ensures flagged[i].errors == [] {
      MapAt(Flagged(t, user), rows, i);
      ValidHasNoErrors(fs[i]);
    }
    ThreeKinds(flagged);
  }

  /** The numbers of the rows a preview shows as ready. */
  function ReadyNumbers(p: Preview): seq<nat> {
    Map(NumberOf(), Filter(IsReady(), p.rows))
  }

  // ----- selections -----

  predicate Unique(ns: seq<nat>) {
    forall i, j | 0 <= i < j < |ns| :: ns[i] != ns[j]
  }

  predicate UniqueNumbers(rows: seq<ParsedRow>) {
    forall i, j | 0 <= i < j < |rows| :: rows[i].rowNumber != rows[j].rowNumber
  }

  function Elements(ns: seq<nat>): set<nat> {
    set n | n in ns
  }

  lemma {:induction false} UniqueCounts(ns: seq<nat>)
    requires Unique(ns)
    ensures |Elements(ns)| == |ns|
  {
    if ns == [] {
    } else {
      var front, last := ns[..|ns| - 1], ns[|ns| - 1];
      UniqueCounts(front);
      assert last !in Elements(front);
      assert Elements(ns) == Elements(front) + {last} by { assert ns == front + [last]; }
    }
  }

  lemma {:induction false} SelectionIsUnique(p: ParsedRow -> bool, rows: seq<ParsedRow>)
    requires UniqueNumbers(rows)
    ensures UniqueNumbers(Filter(p, rows))
  {
    if rows == [] {
    } else {
      SelectionIsUnique(p, rows[1..]);
      forall i | 0 <= i < |Filter(p, rows[1..])| ensures Filter(p, rows[1..])[i].rowNumber != rows[0].rowNumber {
        FilterIn(p, rows[1..], Filter(p, rows[1..])[i]);
      }
    }
  }

  lemma {:induction false} FilterIsEmpty<A>(p: A -> bool, s: seq<A>)
    ensures Filter(p, s) == [] <==> forall i | 0 <= i < |s| :: !p(s[i])
  {
    if s == [] {
    } else {
      FilterIsEmpty(p, s[1..]);
      assert forall i | 0 <= i < |s[1..]| :: s[1..][i] == s[i + 1];
      assert forall i | 1 <= i < |s| :: s[i] == s[1..][i - 1];
    }
  }

  /** When every number of a duplicate-free selection is found, exactly that many rows are selected. */
  lemma SelectedCount(rows: seq<ParsedRow>, ns: seq<nat>)
    requires UniqueNumbers(rows) && Unique(ns) && Missing(rows, ns) == []
    ensures |Selected(rows, ns)| == |ns|
  {
    var chosen := Selected(rows, ns);
    var found := Map(NumberOf(), chosen);
    SelectionIsUnique(Selects(ns), rows);
    forall i | 0 <= i < |chosen| ensures found[i] == chosen[i].rowNumber && found[i] in ns {
      MapAt(NumberOf(), chosen, i);
      FilterIn(Selects(ns), rows, chosen[i]);
    }
    FilterIsEmpty(NotIn(found), ns);
    UniqueCounts(ns);
    UniqueCounts(found);
    assert Elements(ns) == Elements(found);
  }

  // ----- a preview and its confirmation -----

  function ReadyIn(t: Table, user: string): ParsedRow -> bool {
    (row: ParsedRow) => row.errors == [] && !IsDuplicate(t, user, row)
  }

  lemma {:induction false} ReadyIsFlagged(t: Table, user: string, rows: seq<ParsedRow>)
    ensures Filter(IsReady(), Map(Flagged(t, user), rows)) == Map(Flagged(t, user), Filter(ReadyIn(t, user), rows))
  {
    if rows == [] {
    } else {
      ReadyIsFlagged(t, user, rows[1..]);
    }
  }

  lemma {:induction false} FlagsKeepNumbers(t: Table, user: string, rows: seq<ParsedRow>)
    ensures Map(NumberOf(), Map(Flagged(t, user), rows)) == Map(NumberOf(), rows)
  {
    if rows == [] {
    } else {
      FlagsKeepNumbers(t, user, rows[1..]);
    }
  }

  lemma NumbersOfRows(fs: seq<Fields>, lower: string -> string)
    ensures UniqueNumbers(RowsOf(fs, lower))
  {
  }

  lemma {:induction false} InMap<A, B>(f: A -> B, s: seq<A>, b: B)
    ensures b in Map(f, s) <==> exists i | 0 <= i < |s| :: f(s[i]) == b
  {
    forall i | 0 <= i < |s| ensures Map(f, s)[i] == f(s[i]) { MapAt(f, s, i); }
  }

  lemma ReadyNumbersAre(t: Table, user: string, rows: seq<ParsedRow>)
    ensures ReadyNumbers(PreviewOf(t, user, rows)) == Map(NumberOf(), Filter(ReadyIn(t, user), rows))
    ensures PreviewOf(t, user, rows).readyCount == |Filter(ReadyIn(t, user), rows)|
  {
    ReadyIsFlagged(t, user, rows);
    FlagsKeepNumbers(t, user, Filter(ReadyIn(t, user), rows));
  }

  /** Selecting by the numbers of some rows of a file selects those rows. */
  lemma NumbersSelect(p: ParsedRow -> bool, rows: seq<ParsedRow>)
    requires UniqueNumbers(rows)
    ensures Selected(rows, Map(NumberOf(), Filter(p, rows))) == Filter(p, rows)
  {
    var some := Filter(p, rows);
    var ns := Map(NumberOf(), some);
    forall i | 0 <= i < |rows| ensures Selects(ns)(rows[i]) == p(rows[i]) {
      InMap(NumberOf(), some, rows[i].rowNumber);
      FilterIn(p, rows, rows[i]);
      forall k | 0 <= k < |some| && some[k].rowNumber == rows[i].rowNumber ensures some[k] == rows[i] {
        FilterIn(p, rows, some[k]);
      }
    }
    FilterAgrees(Selects(ns), p, rows);
  }

  /** Confirming the numbers of all valid rows refuses nothing and inserts exactly the valid rows. */
  lemma AllValidAreConfirmed(fs: seq<Fields>, lower: string -> string)
    ensures var ns := Map(NumberOf(), ValidRows(fs, lower));
            Refused(RowsOf(fs, lower), ns) == [] && Selected(RowsOf(fs, lower), ns) == ValidRows(fs, lower)
  {
    var rows, valid := RowsOf(fs, lower), ValidRows(fs, lower);
    NumbersOfRows(fs, lower);
    NumbersSelect(IsImportable(), rows);
    forall i | 0 <= i < |valid| ensures valid[i].errors == [] { FilterIn(IsImportable(), rows, valid[i]); }
    FilterIsEmpty(HasErrors(), valid);
    FilterIsEmpty(NotIn(Map(NumberOf(), valid)), Map(NumberOf(), valid));
  }

  lemma {:induction false} SelectionIsDistinct(p: ParsedRow -> bool, rows: seq<ParsedRow>)
    requires forall i, j | 0 <= i < j < |rows| && rows[i].fingerprint.Some? ::
               rows[i].fingerprint != rows[j].fingerprint
    requires forall i | 0 <= i < |rows| && p(rows[i]) :: rows[i].fingerprint.Some?
    ensures DistinctFingerprints(Filter(p, rows)) && AllFingerprinted(Filter(p, rows))
  {
    if rows == [] {
    } else {
      SelectionIsDistinct(p, rows[1..]);
      forall i | 0 <= i < |Filter(p, rows[1..])| && p(rows[0])
        ensures Filter(p, rows[1..])[i].fingerprint != rows[0].fingerprint
      {
        FilterIn(p, rows[1..], Filter(p, rows[1..])[i]);
      }
    }
  }

  lemma ReadyRowsAreNew(t: Table, user: string, fs: seq<Fields>, lower: string -> string)
    ensures var ready := Filter(ReadyIn(t, user), RowsOf(fs, lower));
            AllFingerprinted(ready) && DistinctFingerprints(ready) && forall i | 0 <= i < |ready| ::
                ready[i].errors == [] && SlotOf(user, ready[i]) !in t
  {
    var rows := RowsOf(fs, lower);
    var ready := Filter(ReadyIn(t, user), rows);
    forall i, j | 0 <= i < j < |rows| && rows[i].fingerprint.Some? ensures rows[i].fingerprint != rows[j].fingerprint {
      if rows[j].fingerprint.Some? { FingerprintsDiffer(KeysOf(fs, lower), i, j); }
    }
    forall i | 0 <= i < |rows| && ReadyIn(t, user)(rows[i])
      ensures rows[i].fingerprint.Some?
    {
      ValidHasNoErrors(fs[i]);
    }
    SelectionIsDistinct(ReadyIn(t, user), rows);
    forall i | 0 <= i < |ready|
      ensures ready[i].errors == [] && SlotOf(user, ready[i]) !in t
    {
      FilterIn(ReadyIn(t, user), rows, ready[i]);
    }
  }

  /**
   Confirming exactly the ready rows of a preview, on an unchanged store, refuses nothing and imports exactly
   the ready count.
   */
  lemma PreviewThenConfirm(t: Table, user: string, goal: Option<string>, fs: seq<Fields>, lower: string -> string)
    ensures var rows := RowsOf(fs, lower);
            var p := PreviewOf(t, user, rows);
            var chosen := Selected(rows, ReadyNumbers(p));
            && Refused(rows, ReadyNumbers(p)) == [] && AllFingerprinted(chosen) && |chosen| == p.readyCount
            && |InsertAll(t, user, goal, chosen)| == |t| + p.readyCount
  {
    var rows := RowsOf(fs, lower);
    var ns, ready := ReadyNumbers(PreviewOf(t, user, rows)), Filter(ReadyIn(t, user), rows);
    NumbersOfRows(fs, lower);
    ReadyNumbersAre(t, user, rows);
    NumbersSelect(ReadyIn(t, user), rows);
    ReadyRowsAreNew(t, user, fs, lower);
    FilterIsEmpty(HasErrors(), ready);
    FilterIsEmpty(NotIn(ns), ns);
    NewRowsAreAdded(t, user, goal, ready);
  }

  lemma ParsedSelection(csv: string, lower: string -> string, ns: seq<nat>)
    requires ParseImport(csv, lower).Ok?
    ensures var rows := ParseImport(csv, lower).value;
            && (Filter(HasErrors(), Selected(rows, ns)) == [] ==> AllFingerprinted(Selected(rows, ns)))
            && (Unique(ns) && Missing(rows, ns) == [] ==> |Selected(rows, ns)| == |ns|)
  {
    var rows := ParseImport(csv, lower).value;
    var fs := ParsedFields(csv, lower);
    NumbersOfRows(fs, lower);
    if Unique(ns) && Missing(rows, ns) == [] { SelectedCount(rows, ns); }
    var chosen := Selected(rows, ns);
    FilterIsEmpty(HasErrors(), chosen);
    forall i | 0 <= i < |chosen| && chosen[i].errors == [] ensures chosen[i].fingerprint.Some? {
      FilterIn(Selects(ns), rows, chosen[i]);
      ValidHasNoErrors(chosen[i].fields);
    }
  }

  /** The fields of the rows of a readable file. */
  function ParsedFields(csv: string, lower: string -> string): (fs: seq<Fields>)
    requires ParseImport(csv, lower).Ok?
    ensures ParseImport(csv, lower).value == RowsOf(fs, lower)
  {
    var records := Csv.Parse(CanonicalCsv(csv).value).value;
    AllFields(records[1..], PositionsOf(Headers(records[0])))
  }

  /** The table after confirming these row numbers of a file: unchanged when anything is refused. */
  function Confirmed(t: Table, user: string, goal: Option<string>, csv: string, lower: string -> string,
                     ns: seq<nat>): Table
  {
    match ParseImport(csv, lower)
    case Err(_) => t
    case Ok(rows) =>
      if Refused(rows, ns) != [] then t
      else
        ParsedSelection(csv, lower, ns);
        InsertAll(t, user, goal, Selected(rows, ns))
  }

  // ----- the service -----

  class TransactionStore {
    var table: Table
    const lower: string -> string

    constructor (lower: string -> string)
      ensures table == map[] && this.lower == lower
    {
      table := map[];
      this.lower := lower;
    }

    /** Inserts row after row, skipping the ones whose slot is taken. */
    method CreateMany(user: string, goal: Option<string>, rows: seq<ParsedRow>) returns (count: nat)
      requires AllFingerprinted(rows)
      modifies `table
      ensures table == InsertAll(old(table), user, goal, rows)
      ensures count == |table| - |old(table)| && count <= |rows|
    {
      count := 0;
      for i := 0 to |rows|
        invariant table == InsertAll(old(table), user, goal, rows[..i])
        invariant count == |table| - |old(table)| && count <= i
      {
        assert rows[..i + 1][..i] == rows[..i];
        if SlotOf(user, rows[i]) !in table {
          table := table[SlotOf(user, rows[i]) := Tx(goal, rows[i].fields)];
          count := count + 1;
        }
      }
      assert rows[..|rows|] == rows;
    }

    method PreviewImport(user: string, goal: Option<string>, goalOwned: bool, csv: string)
      returns (r: Result<Preview, ConfirmError>)
      ensures goal.Some? && !goalOwned ==> r == Err(GoalNotFound)
      ensures (goal.None? || goalOwned) && ParseImport(csv, lower).Err? ==>
                r == Err(Unreadable(ParseImport(csv, lower).error))
      ensures (goal.None? || goalOwned) && ParseImport(csv, lower).Ok? ==>
                r == Ok(PreviewOf(table, user, ParseImport(csv, lower).value))
    {
      if goal.Some? && !goalOwned { return Err(GoalNotFound); }
      var parsed := ParseTransactionImport(csv, lower);
      if parsed.Err? { return Err(Unreadable(parsed.error)); }
      r := Ok(PreviewOf(table, user, parsed.value));
    }

    method ConfirmImport(user: string, goal: Option<string>, goalOwned: bool, csv: string, rowNumbers: seq<nat>)
      returns (r: Result<Imported, ConfirmError>)
      modifies `table
      ensures r.Err? ==> table == old(table)
      ensures goal.Some? && !goalOwned ==> r == Err(GoalNotFound)
      ensures goal.None? || goalOwned ==> table == Confirmed(old(table), user, goal, csv, lower, rowNumbers)
      ensures (goal.None? || goalOwned) && ParseImport(csv, lower).Err? ==>
                r == Err(Unreadable(ParseImport(csv, lower).error))
      ensures (goal.None? || goalOwned) && ParseImport(csv, lower).Ok? ==>
                var rows := ParseImport(csv, lower).value;
                var chosen := Selected(rows, rowNumbers);
                if Refused(rows, rowNumbers) != [] then r == Err(NotImportable(Refused(rows, rowNumbers)))
                else
                  && r.Ok? && AllFingerprinted(chosen) && table == InsertAll(old(table), user, goal, chosen)
                  && r.value.importedCount == |table| - |old(table)|
                  && (Unique(rowNumbers) ==> r.value.importedCount + r.value.duplicateCount == |rowNumbers|)
    {
      if goal.Some? && !goalOwned { return Err(GoalNotFound); }
      var parsed := ParseTransactionImport(csv, lower);
      if parsed.Err? { return Err(Unreadable(parsed.error)); }
      var rows := parsed.value;
      var chosen := Selected(rows, rowNumbers);
      var missing, invalid := Missing(rows, rowNumbers), Filter(HasErrors(), chosen);
      if missing != [] || invalid != [] { return Err(NotImportable(missing + Map(NumberOf(), invalid))); }
      ParsedSelection(csv, lower, rowNumbers);
      var count := CreateMany(user, goal, chosen);
      r := Ok(Imported(count, |chosen| - count));
    }
  }

  // ----- from statements to stored rows -----

  /** The numbers of all valid rows of a file, none if it cannot be read. */
  function ValidNumbers(csv: string, lower: string -> string): seq<nat> {
    match ParseImport(csv, lower)
    case Err(_) => []
    case Ok(rows) => Map(NumberOf(), Filter(IsImportable(), rows))
  }

  /** Confirming all valid rows of one file after the other. */
  function ConfirmedTexts(user: string, goal: Option<string>, csvs: seq<string>, lower: string -> string): Table {
    if csvs == [] then map[]
    else
      var last := csvs[|csvs| - 1];
      Confirmed(ConfirmedTexts(user, goal, csvs[..|csvs| - 1], lower), user, goal, last, lower,
                ValidNumbers(last, lower))
  }

  function FieldsIn(csv: string, lower: string -> string): seq<Fields> {
    if ParseImport(csv, lower).Ok? then ParsedFields(csv, lower) else []
  }

  function FieldsInAll(csvs: seq<string>, lower: string -> string): seq<seq<Fields>> {
    seq(|csvs|, n requires 0 <= n < |csvs| => FieldsIn(csvs[n], lower))
  }

  lemma ConfirmedFile(t: Table, user: string, goal: Option<string>, csv: string, lower: string -> string)
    ensures Confirmed(t, user, goal, csv, lower, ValidNumbers(csv, lower))
            == ImportFile(t, user, goal, FieldsIn(csv, lower), lower)
  {
    if ParseImport(csv, lower).Ok? { AllValidAreConfirmed(ParsedFields(csv, lower), lower); }
  }

  lemma {:induction false} ConfirmedFiles(user: string, goal: Option<string>, csvs: seq<string>,
                                          lower: string -> string)
    ensures ConfirmedTexts(user, goal, csvs, lower) == ImportFiles(map[], user, goal, FieldsInAll(csvs, lower), lower)
  {
    var files := FieldsInAll(csvs, lower);
    if csvs == [] {
    } else {
      var front, last := csvs[..|csvs| - 1], csvs[|csvs| - 1];
      ConfirmedFiles(user, goal, front, lower);
      ConfirmedFile(ConfirmedTexts(user, goal, front, lower), user, goal, last, lower);
      assert files[..|files| - 1] == FieldsInAll(front, lower);
    }
  }

  predicate RealDates(fs: seq<Fields>) {
    forall i | 0 <= i < |fs| && IsValid(fs[i]) :: HasRealDate(fs[i])
  }

  lemma ReadDatesAreReal(csv: string, lower: string -> string)
    ensures RealDates(FieldsIn(csv, lower))
  {
    if ParseImport(csv, lower).Ok? {
      var records := Csv.Parse(CanonicalCsv(csv).value).value;
      var at := PositionsOf(Headers(records[0]));
      var fs := ParsedFields(csv, lower);
      forall i | 0 <= i < |fs| && IsValid(fs[i]) ensures HasRealDate(fs[i]) {
        MapAt(Reader(at), records[1..], i);
        ParsedDateIsReal(Cell(records[1..][i], at.date));
      }
    }
  }

  /** The rows of a file that are valid and the same transaction as `f`. */
  function RowsLike(fs: seq<Fields>, f: Fields, lower: string -> string): set<nat> {
    set i | 0 <= i < |fs| && IsValid(fs[i]) && SameTransaction(fs[i], f, lower)
  }

  function Places(keys: Keys, c: Option<string>, n: nat): set<nat>
    requires n <= |keys|
  {
    set i | 0 <= i < n && keys[i] == c
  }

  lemma CountedOnce(keys: Keys, c: Option<string>, n: nat)
    requires n < |keys|
    ensures multiset(keys[..n + 1])[c] == multiset(keys[..n])[c] + (if keys[n] == c then 1 else 0)
  {
    assert keys[..n + 1] == keys[..n] + [keys[n]];
  }

  lemma PlacedOnce(keys: Keys, c: Option<string>, n: nat)
    requires n < |keys|
    ensures |Places(keys, c, n + 1)| == |Places(keys, c, n)| + (if keys[n] == c then 1 else 0)
  {
    if keys[n] == c {
      assert Places(keys, c, n + 1) == Places(keys, c, n) + {n};
    } else {
      assert Places(keys, c, n + 1) == Places(keys, c, n);
    }
  }

  lemma {:induction false} PlacesAreCounted(keys: Keys, c: Option<string>, n: nat)
    requires n <= |keys|
    ensures |Places(keys, c, n)| == multiset(keys[..n])[c]
  {
    if n == 0 {
    } else {
      PlacesAreCounted(keys, c, n - 1);
      CountedOnce(keys, c, n - 1);
      PlacedOnce(keys, c, n - 1);
    }
  }

  lemma LikeRowsAreCounted(fs: seq<Fields>, f: Fields, lower: string -> string)
    requires RealDates(fs) && IsValid(f) && HasRealDate(f)
    ensures |RowsLike(fs, f, lower)| == CountOf(KeysOf(fs, lower), CanonicalText(f, lower))
  {
    var keys, c := KeysOf(fs, lower), Some(CanonicalText(f, lower));
    PlacesAreCounted(keys, c, |keys|);
    assert keys[..|keys|] == keys;
    forall i | 0 <= i < |fs| ensures keys[i] == c <==> IsValid(fs[i]) && SameTransaction(fs[i], f, lower) {
      if IsValid(fs[i]) { CanonicalTextDetermines(fs[i], f, lower); }
    }
    assert RowsLike(fs, f, lower) == Places(keys, c, |keys|);
  }

  /** The slot is one of a valid row with these fields. */
  ghost predicate SlotMatches(slot: Slot, tx: Tx, user: string, goal: Option<string>, lower: string -> string) {
    && slot.user == user && tx.goal == goal && IsValid(tx.fields) && HasRealDate(tx.fields)
    && exists k: nat :: slot.fingerprint == FingerprintOf(CanonicalText(tx.fields, lower), k)
  }

  ghost predicate TableMatches(t: Table, user: string, goal: Option<string>, lower: string -> string) {
    forall slot | slot in t :: SlotMatches(slot, t[slot], user, goal, lower)
  }

  lemma {:induction false} InsertingKeepsMatches(t: Table, user: string, goal: Option<string>, rows: seq<ParsedRow>,
                                                 lower: string -> string)
    requires AllFingerprinted(rows) && TableMatches(t, user, goal, lower)
    requires forall i | 0 <= i < |rows| ::
               SlotMatches(SlotOf(user, rows[i]), Tx(goal, rows[i].fields), user, goal, lower)
    ensures TableMatches(InsertAll(t, user, goal, rows), user, goal, lower)
  {
    if rows == [] {
    } else {
      InsertingKeepsMatches(t, user, goal, rows[..|rows| - 1], lower);
    }
  }

  lemma ImportingKeepsMatches(t: Table, user: string, goal: Option<string>, fs: seq<Fields>, lower: string -> string)
    requires RealDates(fs) && TableMatches(t, user, goal, lower)
    ensures TableMatches(ImportFile(t, user, goal, fs, lower), user, goal, lower)
  {
    var rows, valid := RowsOf(fs, lower), ValidRows(fs, lower);
    ValidRowsHaveFingerprints(fs, lower, Sha256(""));
    forall i | 0 <= i < |valid|
      ensures SlotMatches(SlotOf(user, valid[i]), Tx(goal, valid[i].fields), user, goal, lower)
    {
      FilterIn(IsImportable(), rows, valid[i]);
      var n :| 0 <= n < |rows| && rows[n] == valid[i];
      ValidHasNoErrors(fs[n]);
      assert valid[i].fingerprint.value == FingerprintOf(CanonicalText(fs[n], lower), Occurrence(KeysOf(fs, lower), n));
    }
    InsertingKeepsMatches(t, user, goal, valid, lower);
  }

  lemma {:induction false} FilesKeepMatches(user: string, goal: Option<string>, files: seq<seq<Fields>>,
                                            lower: string -> string)
    requires forall n | 0 <= n < |files| :: RealDates(files[n])
    ensures TableMatches(ImportFiles(map[], user, goal, files, lower), user, goal, lower)
  {
    if files == [] {
    } else {
      var front := files[..|files| - 1];
      FilesKeepMatches(user, goal, front, lower);
      ImportingKeepsMatches(ImportFiles(map[], user, goal, front, lower), user, goal, files[|files| - 1], lower);
    }
  }

  /** Whatever the order of rows and files, each slot holds the same transaction, up to the case of its note. */
  lemma OrderKeepsTransactions(user: string, goal: Option<string>, files: seq<seq<Fields>>, others: seq<seq<Fields>>,
                               lower: string -> string, slot: Slot)
    requires (forall n | 0 <= n < |files| :: RealDates(files[n]))
    requires (forall n | 0 <= n < |others| :: RealDates(others[n]))
    requires Contents(files, lower) == Contents(others, lower) && slot in ImportFiles(map[], user, goal, files, lower)
    ensures var (t, u) := (ImportFiles(map[], user, goal, files, lower), ImportFiles(map[], user, goal, others, lower));
            slot in u && SameTransaction(t[slot].fields, u[slot].fields, lower) && t[slot].goal == u[slot].goal
  {
    var t, u := ImportFiles(map[], user, goal, files, lower), ImportFiles(map[], user, goal, others, lower);
    OrderDoesNotMatter(user, goal, files, others, lower);
    assert slot in u.Keys;
    FilesKeepMatches(user, goal, files, lower);
    FilesKeepMatches(user, goal, others, lower);
    assert SlotMatches(slot, t[slot], user, goal, lower) && SlotMatches(slot, u[slot], user, goal, lower);
    var k :| slot.fingerprint == FingerprintOf(CanonicalText(t[slot].fields, lower), k);
    var n :| slot.fingerprint == FingerprintOf(CanonicalText(u[slot].fields, lower), n);
    FingerprintDetermines(CanonicalText(t[slot].fields, lower), k, CanonicalText(u[slot].fields, lower), n);
    CanonicalTextDetermines(t[slot].fields, u[slot].fields, lower);
  }

  /** The stored rows that are the same transaction as `f`. */
  function LikeSlots(t: Table, f: Fields, lower: string -> string): set<Slot> {
    set slot | slot in t && SameTransaction(t[slot].fields, f, lower)
  }

  function NumberedSlots(user: string, c: string, m: nat): set<Slot> {
    set k | 1 <= k <= m :: Slot(user, FingerprintOf(c, k))
  }

  lemma {:induction false} NumberedSlotsCount(user: string, c: string, m: nat)
    ensures |NumberedSlots(user, c, m)| == m
  {
    if m == 0 {
    } else {
      NumberedSlotsCount(user, c, m - 1);
      var last := Slot(user, FingerprintOf(c, m));
      if last in NumberedSlots(user, c, m - 1) {
        var k :| 1 <= k <= m - 1 && Slot(user, FingerprintOf(c, k)) == last;
        FingerprintDetermines(c, k, c, m);
      }
      assert NumberedSlots(user, c, m) == NumberedSlots(user, c, m - 1) + {last};
    }
  }

  lemma LikeSlotHasText(slot: Slot, tx: Tx, user: string, goal: Option<string>, f: Fields, lower: string -> string)
    returns (k: nat)
    requires SlotMatches(slot, tx, user, goal, lower) && IsValid(f) && HasRealDate(f)
    ensures slot.user == user
    ensures SameTransaction(tx.fields, f, lower) ==> slot.fingerprint == FingerprintOf(CanonicalText(f, lower), k)
    ensures (exists n :: slot.fingerprint == FingerprintOf(CanonicalText(f, lower), n)) ==>
              SameTransaction(tx.fields, f, lower)
  {
    k :| slot.fingerprint == FingerprintOf(CanonicalText(tx.fields, lower), k);
    CanonicalTextDetermines(tx.fields, f, lower);
    forall n | slot.fingerprint == FingerprintOf(CanonicalText(f, lower), n)
      ensures SameTransaction(tx.fields, f, lower)
    {
      FingerprintDetermines(CanonicalText(tx.fields, lower), k, CanonicalText(f, lower), n);
    }
  }

  lemma LikeSlotsAreNumbered(user: string, goal: Option<string>, files: seq<seq<Fields>>, f: Fields,
                             lower: string -> string)
    requires forall n | 0 <= n < |files| :: RealDates(files[n])
    requires IsValid(f) && HasRealDate(f)
    ensures var c := CanonicalText(f, lower);
            LikeSlots(ImportFiles(map[], user, goal, files, lower), f, lower)
                == NumberedSlots(user, c, MaxCount(files, lower, c))
  {
    var t, c := ImportFiles(map[], user, goal, files, lower), CanonicalText(f, lower);
    FilesKeepMatches(user, goal, files, lower);
    forall slot: Slot
      ensures slot in LikeSlots(t, f, lower) <==> slot in NumberedSlots(user, c, MaxCount(files, lower, c))
    {
      if slot in t {
        var k := LikeSlotHasText(slot, t[slot], user, goal, f, lower);
        StoredIsMaximum(user, goal, files, lower, c, k);
      }
      if slot in NumberedSlots(user, c, MaxCount(files, lower, c)) {
        var k :| 1 <= k <= MaxCount(files, lower, c) && slot == Slot(user, FingerprintOf(c, k));
        StoredIsMaximum(user, goal, files, lower, c, k);
      }
    }
  }

  function LikeCounts(csvs: seq<string>, f: Fields, lower: string -> string): seq<nat> {
    seq(|csvs|, n requires 0 <= n < |csvs| => |RowsLike(FieldsIn(csvs[n], lower), f, lower)|)
  }

  /**
   From texts to the table: after confirming all valid rows of any CSV files, one after the other, each
   transaction is stored as often as the file that has it most.
   */
  lemma StoredAsOftenAsInOneFile(user: string, goal: Option<string>, csvs: seq<string>, lower: string -> string, n: nat,
                                 i: nat)
    requires n < |csvs| && i < |FieldsIn(csvs[n], lower)| && IsValid(FieldsIn(csvs[n], lower)[i])
    ensures var f := FieldsIn(csvs[n], lower)[i];
            |LikeSlots(ConfirmedTexts(user, goal, csvs, lower), f, lower)| == Largest(LikeCounts(csvs, f, lower))
  {
    var f, files := FieldsIn(csvs[n], lower)[i], FieldsInAll(csvs, lower);
    var c := CanonicalText(f, lower);
    forall m | 0 <= m < |csvs| ensures RealDates(files[m]) { ReadDatesAreReal(csvs[m], lower); }
    assert HasRealDate(f) by { assert files[n][i] == f; }
    ConfirmedFiles(user, goal, csvs, lower);
    LikeSlotsAreNumbered(user, goal, files, f, lower);
    NumberedSlotsCount(user, c, MaxCount(files, lower, c));
    forall m | 0 <= m < |csvs| ensures LikeCounts(csvs, f, lower)[m] == CountsIn(files, lower, c)[m] {
      LikeRowsAreCounted(files[m], f, lower);
    }
    assert LikeCounts(csvs, f, lower) == CountsIn(files, lower, c);
  }
}
