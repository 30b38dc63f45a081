/** What a preview shows, what an import is refused for, and what it stores, row by row of the file. */
module ImportOutcomes {
  import opened Wrappers
  import opened TransactionImport
  import opened ImportLedger

  // ----- counting -----

  function Chosen<A>(p: A -> bool, s: seq<A>, n: nat): set<nat>
    requires n <= |s|
  {
    set i | 0 <= i < n && p(s[i])
  }

  lemma {:induction false} FilterOneMore<A>(p: A -> bool, s: seq<A>, a: A)
    ensures Filter(p, s + [a]) == Filter(p, s) + if p(a) then [a] else []
  {
    if s == [] {
      assert s + [a] == [a];
    } else {
      FilterOneMore(p, s[1..], a);
      assert (s + [a])[1..] == s[1..] + [a];
    }
  }

  lemma ChosenOneMore<A>(p: A -> bool, s: seq<A>, n: nat)
    requires n < |s|
    ensures |Chosen(p, s, n + 1)| == |Chosen(p, s, n)| + if p(s[n]) then 1 else 0
  {
    assert Chosen(p, s, n + 1) == if p(s[n]) then Chosen(p, s, n) + {n} else Chosen(p, s, n);
  }

  lemma {:induction false} FilterCounts<A>(p: A -> bool, s: seq<A>, n: nat)
    requires n <= |s|
    ensures |Filter(p, s[..n])| == |Chosen(p, s, n)|
  {
    if n == 0 {
    } else {
      FilterCounts(p, s, n - 1);
      ChosenOneMore(p, s, n - 1);
      assert s[..n] == s[..n - 1] + [s[n - 1]];
      FilterOneMore(p, s[..n - 1], s[n - 1]);
    }
  }

  lemma CountIs<A>(p: A -> bool, s: seq<A>, chosen: set<nat>)
    requires forall i: nat :: i in chosen <==> i < |s| && p(s[i])
    ensures |Filter(p, s)| == |chosen|
  {
    FilterCounts(p, s, |s|);
    assert s[..|s|] == s;
    assert Chosen(p, s, |s|) == chosen;
  }

  // ----- the preview -----

  /** The row is valid, and stored already. */
  predicate IsStored(t: Table, user: string, fs: seq<Fields>, lower: string -> string, i: nat)
    requires i < |fs|
  {
    IsValid(fs[i]) && RowAt(fs, lower, i).fingerprint.Some? && SlotOf(user, RowAt(fs, lower, i)) in t
  }

  lemma FlaggedRow(t: Table, user: string, fs: seq<Fields>, lower: string -> string, i: nat)
    requires i < |fs|
    ensures var row := Map(Flagged(t, user), RowsOf(fs, lower))[i];
            && row.rowNumber == i + 2 && row.fields == fs[i] && row.errors == ErrorsOf(fs[i])
            && row.fingerprint == RowAt(fs, lower, i).fingerprint
            && (row.errors == [] <==> IsValid(fs[i]))
            && (row.duplicate <==> IsStored(t, user, fs, lower, i))
  {
    MapAt(Flagged(t, user), RowsOf(fs, lower), i);
    ValidHasNoErrors(fs[i]);
  }

  /** The rows of a file that are valid and new, that are stored already, and that are invalid. */
  function NewRows(t: Table, user: string, fs: seq<Fields>, lower: string -> string): set<nat> {
    set i | 0 <= i < |fs| && IsValid(fs[i]) && !IsStored(t, user, fs, lower, i)
  }

  function StoredRows(t: Table, user: string, fs: seq<Fields>, lower: string -> string): set<nat> {
    set i | 0 <= i < |fs| && IsStored(t, user, fs, lower, i)
  }

  function InvalidRows(fs: seq<Fields>): set<nat> {
    set i | 0 <= i < |fs| && !IsValid(fs[i])
  }

  lemma CountsAre(t: Table, user: string, fs: seq<Fields>, lower: string -> string, flagged: seq<ParsedRow>)
    requires |flagged| == |fs| && forall i | 0 <= i < |fs| ::
               (flagged[i].errors == [] <==> IsValid(fs[i]))
               && (flagged[i].duplicate <==> IsStored(t, user, fs, lower, i))
    ensures |Filter(IsReady(), flagged)| == |NewRows(t, user, fs, lower)|
    ensures |Filter(IsFlagged(), flagged)| == |StoredRows(t, user, fs, lower)|
    ensures |Filter(HasErrors(), flagged)| == |InvalidRows(fs)|
  {
    CountIs(IsReady(), flagged, NewRows(t, user, fs, lower));
    CountIs(IsFlagged(), flagged, StoredRows(t, user, fs, lower));
    CountIs(HasErrors(), flagged, InvalidRows(fs));
  }

  /**
   A preview shows every row of the file in order, numbered from 2, with its fields and errors, marked as a duplicate
   exactly when it is stored; and it counts the valid rows that are new, those that are stored, and the invalid ones.
   */
  lemma PreviewShows(t: Table, user: string, fs: seq<Fields>, lower: string -> string)
    ensures var p := PreviewOf(t, user, RowsOf(fs, lower));
            && |p.rows| == |fs|
            && (forall i | 0 <= i < |fs| ::
                  && p.rows[i].rowNumber == i + 2 && p.rows[i].fields == fs[i] && p.rows[i].errors == ErrorsOf(fs[i])
                  && (p.rows[i].duplicate <==> IsStored(t, user, fs, lower, i)))
            && p.readyCount == |NewRows(t, user, fs, lower)| && p.duplicateCount == |StoredRows(t, user, fs, lower)|
            && p.invalidCount == |InvalidRows(fs)|
  {
    var flagged := Map(Flagged(t, user), RowsOf(fs, lower));
    forall i | 0 <= i < |fs|
      ensures flagged[i].rowNumber == i + 2 && flagged[i].fields == fs[i] && flagged[i].errors == ErrorsOf(fs[i])
      ensures flagged[i].errors == [] <==> IsValid(fs[i])
      ensures flagged[i].duplicate <==> IsStored(t, user, fs, lower, i)
    {
      FlaggedRow(t, user, fs, lower, i);
    }
    CountsAre(t, user, fs, lower, flagged);
  }

  // ----- confirming -----

  predicate Numbered(rows: seq<ParsedRow>) {
    forall i | 0 <= i < |rows| :: rows[i].rowNumber == i + 2
  }

  predicate NamesRow(rows: seq<ParsedRow>, n: nat) {
    2 <= n < |rows| + 2
  }

  lemma RowIsIn(rows: seq<ParsedRow>, row: ParsedRow)
    requires Numbered(rows)
    ensures row in rows <==> NamesRow(rows, row.rowNumber) && row == rows[row.rowNumber - 2]
  {
    if row in rows {
      var i :| 0 <= i < |rows| && rows[i] == row;
    }
  }

  lemma SelectedAre(rows: seq<ParsedRow>, ns: seq<nat>, row: ParsedRow)
    requires Numbered(rows)
    ensures row in Selected(rows, ns)
            <==> row.rowNumber in ns && NamesRow(rows, row.rowNumber) && row == rows[row.rowNumber - 2]
  {
    FilterIn(Selects(ns), rows, row);
    RowIsIn(rows, row);
  }

  lemma InNumbers(rows: seq<ParsedRow>, n: nat)
    ensures n in Map(NumberOf(), rows) <==> exists row :: row in rows && row.rowNumber == n
  {
    InMap(NumberOf(), rows, n);
    if row :| row in rows && row.rowNumber == n {
      var i :| 0 <= i < |rows| && rows[i] == row;
    }
  }

  lemma MissingAre(rows: seq<ParsedRow>, ns: seq<nat>, n: nat)
    requires Numbered(rows)
    ensures n in Missing(rows, ns) <==> n in ns && !NamesRow(rows, n)
  {
    var chosen := Selected(rows, ns);
    FilterIn(NotIn(Map(NumberOf(), chosen)), ns, n);
    InNumbers(chosen, n);
    if NamesRow(rows, n) { SelectedAre(rows, ns, rows[n - 2]); }
    if row :| row in chosen && row.rowNumber == n { SelectedAre(rows, ns, row); }
  }

  lemma InvalidAre(rows: seq<ParsedRow>, ns: seq<nat>, n: nat)
    requires Numbered(rows)
    ensures n in Map(NumberOf(), Filter(HasErrors(), Selected(rows, ns)))
            <==> n in ns && NamesRow(rows, n) && rows[n - 2].errors != []
  {
    var chosen := Selected(rows, ns);
    InNumbers(Filter(HasErrors(), chosen), n);
    if row :| row in Filter(HasErrors(), chosen) && row.rowNumber == n {
      FilterIn(HasErrors(), chosen, row);
      SelectedAre(rows, ns, row);
    }
    if n in ns && NamesRow(rows, n) && rows[n - 2].errors != [] {
      SelectedAre(rows, ns, rows[n - 2]);
      FilterIn(HasErrors(), chosen, rows[n - 2]);
    }
  }

  lemma RowsAre(fs: seq<Fields>, lower: string -> string)
    ensures |RowsOf(fs, lower)| == |fs| && Numbered(RowsOf(fs, lower))
    ensures forall i | 0 <= i < |fs| :: RowsOf(fs, lower)[i] == RowAt(fs, lower, i)
    ensures forall i | 0 <= i < |fs| :: RowsOf(fs, lower)[i].errors == [] <==> IsValid(fs[i])
  {
    forall i | 0 <= i < |fs| ensures RowsOf(fs, lower)[i].errors == [] <==> IsValid(fs[i]) { ValidHasNoErrors(fs[i]); }
  }

  /** The row of this number can be imported. */
  predicate CanImport(fs: seq<Fields>, n: nat) {
    2 <= n < |fs| + 2 && IsValid(fs[n - 2])
  }

  /** An import is refused for exactly the chosen numbers that name no row of the file, or an invalid one. */
  lemma RefusedExactly(fs: seq<Fields>, lower: string -> string, ns: seq<nat>, n: nat)
    ensures n in Refused(RowsOf(fs, lower), ns) <==> n in ns && !CanImport(fs, n)
  {
    RowsAre(fs, lower);
    MissingAre(RowsOf(fs, lower), ns, n);
    InvalidAre(RowsOf(fs, lower), ns, n);
  }

  predicate Rising(rows: seq<ParsedRow>) {
    forall i, j | 0 <= i < j < |rows| :: rows[i].rowNumber < rows[j].rowNumber
  }

  lemma {:induction false} FilterKeepsRising(p: ParsedRow -> bool, rows: seq<ParsedRow>)
    requires Rising(rows)
    ensures Rising(Filter(p, rows))
  {
    if rows == [] {
    } else {
      FilterKeepsRising(p, rows[1..]);
      forall i | 0 <= i < |Filter(p, rows[1..])| ensures rows[0].rowNumber < Filter(p, rows[1..])[i].rowNumber {
        FilterIn(p, rows[1..], Filter(p, rows[1..])[i]);
      }
    }
  }

  lemma NumbersRise(rows: seq<ParsedRow>)
    requires Rising(rows)
    ensures forall i, j | 0 <= i < j < |rows| :: Map(NumberOf(), rows)[i] < Map(NumberOf(), rows)[j]
  {
    forall i | 0 <= i < |rows| ensures Map(NumberOf(), rows)[i] == rows[i].rowNumber { MapAt(NumberOf(), rows, i); }
  }

  /** The refusal lists the numbers that name no row first, and then those of the invalid rows in the file's order. */
  lemma RefusedOrder(fs: seq<Fields>, lower: string -> string, ns: seq<nat>) returns (k: nat)
    ensures k <= |Refused(RowsOf(fs, lower), ns)|
    ensures forall i | 0 <= i < k :: !(2 <= Refused(RowsOf(fs, lower), ns)[i] < |fs| + 2)
    ensures forall i | k <= i < |Refused(RowsOf(fs, lower), ns)| :: 2 <= Refused(RowsOf(fs, lower), ns)[i] < |fs| + 2
    ensures forall i, j | k <= i < j < |Refused(RowsOf(fs, lower), ns)| ::
              Refused(RowsOf(fs, lower), ns)[i] < Refused(RowsOf(fs, lower), ns)[j]
  {
    var rows := RowsOf(fs, lower);
    var missing, invalid := Missing(rows, ns), Filter(HasErrors(), Selected(rows, ns));
    RowsAre(fs, lower);
    var numbers := Map(NumberOf(), invalid);
    forall i | 0 <= i < |missing| ensures !NamesRow(rows, missing[i]) { MissingAre(rows, ns, missing[i]); }
    forall i | 0 <= i < |numbers| ensures NamesRow(rows, numbers[i]) { InvalidAre(rows, ns, numbers[i]); }
    FilterKeepsRising(Selects(ns), rows);
    FilterKeepsRising(HasErrors(), Selected(rows, ns));
    NumbersRise(invalid);
    k := |missing|;
  }

  /** This chosen row is stored under the slot. */
  predicate StoresRow(tx: Tx, slot: Slot, user: string, goal: Option<string>, fs: seq<Fields>, lower: string -> string,
                      n: nat)
  {
    && CanImport(fs, n) && RowAt(fs, lower, n - 2).fingerprint == Some(slot.fingerprint)
    && slot.user == user && tx == Tx(goal, fs[n - 2])
  }

  predicate HoldsOneOf(tx: Tx, slot: Slot, user: string, goal: Option<string>, rows: seq<ParsedRow>) {
    slot.user == user && exists i | 0 <= i < |rows| ::
        rows[i].fingerprint == Some(slot.fingerprint) && tx == Tx(goal, rows[i].fields)
  }

  lemma {:induction false} InsertedValue(t: Table, user: string, goal: Option<string>, rows: seq<ParsedRow>, slot: Slot)
    requires AllFingerprinted(rows) && slot !in t && slot in InsertAll(t, user, goal, rows)
    ensures HoldsOneOf(InsertAll(t, user, goal, rows)[slot], slot, user, goal, rows)
  {
    assert rows != [];
    var front, last := rows[..|rows| - 1], rows[|rows| - 1];
    if slot in InsertAll(t, user, goal, front) {
      InsertedValue(t, user, goal, front, slot);
      assert forall i | 0 <= i < |front| :: front[i] == rows[i];
    } else {
      assert rows[|rows| - 1].fingerprint == Some(slot.fingerprint);
    }
  }

  lemma ValidIsFingerprinted(fs: seq<Fields>, lower: string -> string, i: nat)
    requires i < |fs| && IsValid(fs[i])
    ensures RowAt(fs, lower, i).fingerprint.Some?
  {
  }

  lemma SelectedIsGood(rows: seq<ParsedRow>, ns: seq<nat>, row: ParsedRow)
    requires Numbered(rows) && Refused(rows, ns) == [] && row in Selected(rows, ns)
    ensures row.rowNumber in ns && NamesRow(rows, row.rowNumber) && row == rows[row.rowNumber - 2] && row.errors == []
  {
    SelectedAre(rows, ns, row);
    InvalidAre(rows, ns, row.rowNumber);
  }

  lemma SelectedAt(fs: seq<Fields>, lower: string -> string, ns: seq<nat>, i: nat)
    requires i < |Selected(RowsOf(fs, lower), ns)| && Refused(RowsOf(fs, lower), ns) == []
    ensures var row := Selected(RowsOf(fs, lower), ns)[i];
            && row.rowNumber in ns && CanImport(fs, row.rowNumber) && row == RowAt(fs, lower, row.rowNumber - 2)
            && row.fingerprint.Some?
  {
    var rows := RowsOf(fs, lower);
    var row := Selected(rows, ns)[i];
    RowsAre(fs, lower);
    SelectedIsGood(rows, ns, row);
    ValidIsFingerprinted(fs, lower, row.rowNumber - 2);
  }

  lemma SelectionIsFingerprinted(fs: seq<Fields>, lower: string -> string, ns: seq<nat>)
    requires Refused(RowsOf(fs, lower), ns) == []
    ensures AllFingerprinted(Selected(RowsOf(fs, lower), ns))
  {
    var chosen := Selected(RowsOf(fs, lower), ns);
    forall i | 0 <= i < |chosen| ensures chosen[i].fingerprint.Some? { SelectedAt(fs, lower, ns, i); }
  }

  lemma InsertedIsStored(t: Table, user: string, goal: Option<string>, chosen: seq<ParsedRow>, row: ParsedRow)
    requires AllFingerprinted(chosen) && row in chosen
    ensures row.fingerprint.Some? && SlotOf(user, row) in InsertAll(t, user, goal, chosen)
  {
    var i :| 0 <= i < |chosen| && chosen[i] == row;
    InsertedSlots(t, user, goal, chosen, SlotOf(user, row));
  }

  lemma ChosenIsSelected(fs: seq<Fields>, lower: string -> string, ns: seq<nat>, n: nat)
    requires Refused(RowsOf(fs, lower), ns) == [] && n in ns
    ensures CanImport(fs, n) && RowAt(fs, lower, n - 2) in Selected(RowsOf(fs, lower), ns)
  {
    RefusedExactly(fs, lower, ns, n);
    RowsAre(fs, lower);
    SelectedAre(RowsOf(fs, lower), ns, RowsOf(fs, lower)[n - 2]);
  }

  /** After a confirmation each row chosen has its slot, taken before or not. */
  lemma ChosenIsStored(t: Table, user: string, goal: Option<string>, fs: seq<Fields>, lower: string -> string,
                       ns: seq<nat>, n: nat)
    requires Refused(RowsOf(fs, lower), ns) == [] && n in ns
    ensures CanImport(fs, n) && RowAt(fs, lower, n - 2).fingerprint.Some?
    ensures AllFingerprinted(Selected(RowsOf(fs, lower), ns))
    ensures SlotOf(user, RowAt(fs, lower, n - 2)) in InsertAll(t, user, goal, Selected(RowsOf(fs, lower), ns))
  {
    ChosenIsSelected(fs, lower, ns, n);
    SelectionIsFingerprinted(fs, lower, ns);
    InsertedIsStored(t, user, goal, Selected(RowsOf(fs, lower), ns), RowAt(fs, lower, n - 2));
  }

  /** A confirmation overwrites nothing, and what it adds are rows chosen, with the goal chosen. */
  lemma OnlyChosenIsAdded(t: Table, user: string, goal: Option<string>, fs: seq<Fields>, lower: string -> string,
                          ns: seq<nat>, slot: Slot)
    requires Refused(RowsOf(fs, lower), ns) == []
    ensures AllFingerprinted(Selected(RowsOf(fs, lower), ns))
    ensures var after := InsertAll(t, user, goal, Selected(RowsOf(fs, lower), ns));
            && (slot in t ==> slot in after && after[slot] == t[slot])
            && (slot !in t && slot in after ==>
                  exists n :: n in ns && StoresRow(after[slot], slot, user, goal, fs, lower, n))
  {
    var chosen := Selected(RowsOf(fs, lower), ns);
    SelectionIsFingerprinted(fs, lower, ns);
    InsertedSlots(t, user, goal, chosen, slot);
    var after := InsertAll(t, user, goal, chosen);
    if slot !in t && slot in after {
      InsertedValue(t, user, goal, chosen, slot);
      var i :| 0 <= i < |chosen| && chosen[i].fingerprint == Some(slot.fingerprint)
               && after[slot] == Tx(goal, chosen[i].fields);
      SelectedAt(fs, lower, ns, i);
      assert StoresRow(after[slot], slot, user, goal, fs, lower, chosen[i].rowNumber);
    }
  }
}
