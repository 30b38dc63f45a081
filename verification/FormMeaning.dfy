/** Which texts the fields of the goal form may have, and what is saved for them. */
module FormMeaning {
  import opened Wrappers
  import opened Text
  import opened Numerals
  import opened Calendar
  import opened ImportCells
  import CellMeaning
  import opened Money

  // ----- amounts -----

  /** Naira digits, and after a full stop one or two digits of kobo, or neither. */
  ghost predicate IsNaira(text: string, kobo: nat) {
    exists digits, cents ::
      CellMeaning.IsAmount(text, digits, false, cents) && CellMeaning.KoboOf(digits, cents) == kobo
  }

  /** The text, commas anywhere in it and white space around it apart, is this amount. */
  ghost predicate SpellsNaira(value: string, kobo: nat) {
    exists t :: CellMeaning.Surrounds(value, t) && IsNaira(WithoutCommas(t), kobo)
  }

  lemma WholeIsRead(text: string)
    requires IsPlain(text)
    ensures PlainAmount(text) == Some(CellMeaning.KoboOf(text, ""))
  {
    PlainDigits(text);
  }

  lemma DecimalsAreRead(digits: string, cents: string)
    requires IsPlain(digits) && AllDigits(cents) && 1 <= |cents| <= 2
    ensures PlainAmount(digits + "." + cents) == Some(CellMeaning.KoboOf(digits, cents))
  {
    PlainSplit(digits, cents);
    CellMeaning.CentsAre(cents);
  }

  lemma NairaIsRead(text: string, kobo: nat)
    requires IsNaira(text, kobo)
    ensures PlainAmount(text) == Some(kobo)
  {
    var digits, cents :| CellMeaning.IsAmount(text, digits, false, cents) && CellMeaning.KoboOf(digits, cents) == kobo;
    if cents == "" {
      assert text == digits;
      WholeIsRead(text);
    } else {
      assert text == digits + "." + cents;
      DecimalsAreRead(digits, cents);
    }
  }

  lemma ReadWholeIsNaira(text: string, kobo: nat)
    requires PlainParts(text, None) == Some(kobo)
    ensures IsNaira(text, kobo)
  {
    CellMeaning.ZeroIsNothing("00");
    assert CellMeaning.IsAmount(text, text, false, "") && CellMeaning.KoboOf(text, "") == kobo;
  }

  lemma ReadDecimalsAreNaira(digits: string, cents: string, kobo: nat)
    requires PlainParts(digits, Some(cents)) == Some(kobo)
    ensures IsNaira(digits + "." + cents, kobo)
  {
    CellMeaning.CentsAre(cents);
    assert digits + "." + cents == digits + ("." + cents);
    assert CellMeaning.IsAmount(digits + "." + cents, digits, false, cents);
  }

  lemma PlainExactly(text: string, kobo: nat)
    ensures PlainAmount(text) == Some(kobo) <==> IsNaira(text, kobo)
  {
    if IsNaira(text, kobo) { NairaIsRead(text, kobo); }
    if PlainAmount(text) == Some(kobo) {
      var dot := DotAt(text);
      if dot == |text| {
        assert text[..dot] == text;
        ReadWholeIsNaira(text, kobo);
      } else {
        assert text == text[..dot] + "." + text[dot + 1..];
        ReadDecimalsAreNaira(text[..dot], text[dot + 1..], kobo);
      }
    }
  }

  lemma {:induction false} CommasKeepEnds(t: string)
    requires WithoutCommas(t) != "" && !IsSpace(WithoutCommas(t)[0])
    requires !IsSpace(WithoutCommas(t)[|WithoutCommas(t)| - 1])
    ensures t != "" && IsTrimmed(t)
  {
    FirstIsKept(t);
  }

  /** Dropping the commas keeps the first and last character, unless that is a comma. */
  lemma {:induction false} FirstIsKept(t: string)
    requires t != ""
    ensures t[0] == ',' || (WithoutCommas(t) != "" && WithoutCommas(t)[0] == t[0])
    ensures t[|t| - 1] == ','
            || (WithoutCommas(t) != "" && WithoutCommas(t)[|WithoutCommas(t)| - 1] == t[|t| - 1])
  {
    var front := t[..|t| - 1];
    if front != "" { FirstIsKept(front); }
  }

  lemma NairaEnds(text: string, kobo: nat)
    requires IsNaira(text, kobo)
    ensures text != "" && IsDigit(text[0]) && IsDigit(text[|text| - 1])
  {
    var digits, cents :| CellMeaning.IsAmount(text, digits, false, cents) && CellMeaning.KoboOf(digits, cents) == kobo;
    assert text[0] == digits[0];
    if cents != "" { assert text[|text| - 1] == cents[|cents| - 1]; }
  }

  lemma SpelledIs(value: string, t: string, kobo: nat)
    requires CellMeaning.Surrounds(value, t) && IsNaira(WithoutCommas(t), kobo)
    ensures Trim(value) == t
  {
    NairaEnds(WithoutCommas(t), kobo);
    CommasKeepEnds(t);
    CellMeaning.TrimIs(value, t);
  }

  lemma NormalizedExactly(value: string, kobo: nat)
    ensures PlainAmount(Normalized(value)) == Some(kobo) <==> SpellsNaira(value, kobo)
  {
    var t := Trim(value);
    PlainExactly(Normalized(value), kobo);
    if IsNaira(WithoutCommas(t), kobo) {
      NairaEnds(WithoutCommas(t), kobo);
      CommasKeepEnds(t);
      CellMeaning.TrimIs(value, t);
    }
    forall u | CellMeaning.Surrounds(value, u) && IsNaira(WithoutCommas(u), kobo) ensures u == t {
      SpelledIs(value, u, kobo);
    }
  }

  /** A required amount is accepted exactly when the field spells it and it is positive and safe. */
  lemma AmountFieldExactly(value: string, kobo: nat)
    ensures NairaInputToKobo(value) == Some(kobo) <==> SpellsNaira(value, kobo) && 0 < kobo <= MAX_SAFE_INTEGER
  {
    NormalizedExactly(value, kobo);
  }

  predicate OnlyCommas(s: string) {
    forall i | 0 <= i < |s| :: s[i] == ','
  }

  lemma {:induction false} NothingButCommas(s: string)
    ensures WithoutCommas(s) == "" <==> OnlyCommas(s)
  {
    if s == "" {
    } else {
      NothingButCommas(s[..|s| - 1]);
    }
  }

  lemma CommasAreTrimmed(value: string, s: string)
    requires OnlyCommas(s) && s != ""
    ensures Trim(value) == s <==> CellMeaning.Surrounds(value, s)
  {
    CellMeaning.TrimIs(value, s);
  }

  /** A blank field, or one of nothing but commas. */
  ghost predicate IsLeftBlank(value: string) {
    IsBlank(value) || exists s :: OnlyCommas(s) && s != "" && CellMeaning.Surrounds(value, s)
  }

  lemma BlankFieldExactly(value: string)
    ensures Normalized(value) == "" <==> IsLeftBlank(value)
  {
    TrimCuts(value);
    NothingButCommas(Trim(value));
    if OnlyCommas(Trim(value)) && Trim(value) != "" { CommasAreTrimmed(value, Trim(value)); }
    forall s | OnlyCommas(s) && s != "" && CellMeaning.Surrounds(value, s) ensures Trim(value) == s {
      CommasAreTrimmed(value, s);
    }
  }

  /** An optional amount is blank, or accepted when the field spells it and it is safe, or invalid. */
  lemma IncomeFieldExactly(value: string, kobo: nat)
    ensures OptionalNairaInputToKobo(value) == Blank <==> IsLeftBlank(value)
    ensures OptionalNairaInputToKobo(value) == Amount(kobo) <==> SpellsNaira(value, kobo) && kobo <= MAX_SAFE_INTEGER
  {
    BlankFieldExactly(value);
    NormalizedExactly(value, kobo);
    PlainExactly("", kobo);
    if IsNaira("", kobo) { NairaEnds("", kobo); }
  }

  // ----- days -----

  lemma DateFieldIsText(value: string, d: Date)
    requires IsDate(d) && d.year < 10000
    ensures value == IsoDate(d) <==> IsoDateOf(value) == Some(d)
  {
    IsoDateOfInverts(value, d);
  }

  lemma PaddedNoon()
    ensures Padded(12, 2) == "12" && Padded(0, 2) == "00" && Padded(0, 3) == "000"
  {
  }

  lemma NoonText(hour: string, zeros: string, more: string)
    requires hour == "12" && zeros == "00" && more == "000"
    ensures "T" + hour + ":" + zeros + ":" + zeros + "." + more + "Z" == NOON
  {
  }

  lemma NoonIsText()
    ensures NOON == TimeText(12, 0, 0, 0)
  {
    PaddedNoon();
    NoonText(Padded(12, 2), Padded(0, 2), Padded(0, 3));
  }

  lemma NoonParts(t: nat)
    requires t == 43_200_000
    ensures t / 1000 / 60 / 60 == 12 && t / 1000 / 60 % 60 == 0 && t / 1000 % 60 == 0 && t % 1000 == 0
  {
  }

  lemma NoonIs(t: nat)
    requires t == 43_200_000
    ensures NOON == TimeOfDay(t)
  {
    NoonParts(t);
    NoonIsText();
  }

  lemma DayAndRest(k: nat, t: nat, ms: nat)
    requires t < MS_PER_DAY && ms == k * MS_PER_DAY + t
    ensures ms / MS_PER_DAY == k && ms % MS_PER_DAY == t
  {
  }

  lemma InstantText(ms: nat, date: Date, t: nat)
    requires date == DateOf(EPOCH_DAY + ms / MS_PER_DAY) && t == ms % MS_PER_DAY
    ensures IsoInstant(ms) == IsoDate(date) + TimeOfDay(t)
  {
  }

  lemma FromEpochOn(d: Date)
    requires IsDate(d) && d.year >= 1970
    ensures DayNumber(d) >= EPOCH_DAY
  {
    if d.year > 1970 { YearsAreOrdered(1970, d.year); }
  }

  lemma NoonInstant(ms: nat, d: Date)
    requires d == DateOf(EPOCH_DAY + ms / MS_PER_DAY) && ms % MS_PER_DAY == 43_200_000
    ensures IsoInstant(ms) == IsoDate(d) + NOON
  {
    InstantText(ms, d, ms % MS_PER_DAY);
    NoonIs(ms % MS_PER_DAY);
  }

  /** A date field of a day from 1970 on becomes the instant of noon of that day, UTC. */
  lemma DateFieldIsNoon(d: Date)
    requires IsDate(d) && 1970 <= d.year < 10000
    ensures DayNumber(d) >= EPOCH_DAY
    ensures DateInputToIso(IsoDate(d)) == Some(IsoInstant((DayNumber(d) - EPOCH_DAY) * MS_PER_DAY + 43_200_000))
  {
    FromEpochOn(d);
    var ms := (DayNumber(d) - EPOCH_DAY) * MS_PER_DAY + 43_200_000;
    DayAndRest(DayNumber(d) - EPOCH_DAY, 43_200_000, ms);
    DayNumberNames(d);
    NoonInstant(ms, d);
    DateFieldIsText(IsoDate(d), d);
  }

  // ----- the form -----

  /** What a date field may be, and what is sent for it. */
  ghost predicate SpellsDay(value: string, dueDate: string) {
    dueDate == value + "T12:00:00.000Z" && exists d: Date {:trigger IsoDate(d)} ::
      IsDate(d) && d.year < 10000 && value == IsoDate(d)
  }

  lemma DateFieldExactly(value: string, dueDate: string)
    ensures DateInputToIso(value) == Some(dueDate) <==> SpellsDay(value, dueDate)
  {
    DateInputIsRead(value);
  }

  lemma NameFieldExactly(value: string, name: string)
    ensures Trim(value) == name && name != "" <==> name != "" && IsTrimmed(name) && CellMeaning.Surrounds(value, name)
  {
    TrimCuts(value);
    if name != "" && IsTrimmed(name) { CellMeaning.TrimIs(value, name); }
  }

  ghost predicate SpellsIncome(value: string, income: Option<nat>) {
    match income
    case None => IsLeftBlank(value)
    case Some(kobo) => SpellsNaira(value, kobo) && kobo <= MAX_SAFE_INTEGER
  }

  lemma IncomeIs(value: string, income: Option<nat>)
    ensures SpellsIncome(value, income)
            <==> OptionalNairaInputToKobo(value) == if income.None? then Blank else Amount(income.value)
  {
    IncomeFieldExactly(value, if income.None? then 0 else income.value);
  }

  lemma PayloadIs(fields: FormFields, goal: Goal)
    ensures BuildUpdateGoalPayload(fields) == Some(goal) <==>
            && Trim(fields.name) == goal.name && goal.name != ""
            && NairaInputToKobo(fields.amountNaira) == Some(goal.amountTotalKobo)
            && DateInputToIso(fields.dueOn) == Some(goal.dueDate)
            && OptionalNairaInputToKobo(fields.monthlyIncomeNaira)
               == if goal.monthlyIncomeKobo.None? then Blank else Amount(goal.monthlyIncomeKobo.value)
  {
  }

  /**
   The form saves a goal exactly when its fields spell it: a name that is not blank, a positive safe target, a real day,
   and an income that is safe or left blank.
   */
  lemma FormSavesExactly(fields: FormFields, goal: Goal)
    ensures BuildUpdateGoalPayload(fields) == Some(goal) <==>
            && goal.name != "" && IsTrimmed(goal.name) && CellMeaning.Surrounds(fields.name, goal.name)
            && SpellsNaira(fields.amountNaira, goal.amountTotalKobo) && 0 < goal.amountTotalKobo <= MAX_SAFE_INTEGER
            && SpellsDay(fields.dueOn, goal.dueDate)
            && SpellsIncome(fields.monthlyIncomeNaira, goal.monthlyIncomeKobo)
  {
    PayloadIs(fields, goal);
    NameFieldExactly(fields.name, goal.name);
    AmountFieldExactly(fields.amountNaira, goal.amountTotalKobo);
    DateFieldExactly(fields.dueOn, goal.dueDate);
    IncomeIs(fields.monthlyIncomeNaira, goal.monthlyIncomeKobo);
  }

  ghost predicate NameIsGood(fields: FormFields) {
    !IsBlank(fields.name)
  }

  ghost predicate TargetIsGood(fields: FormFields) {
    exists kobo: nat :: SpellsNaira(fields.amountNaira, kobo) && 0 < kobo <= MAX_SAFE_INTEGER
  }

  ghost predicate DayIsGood(fields: FormFields) {
    exists iso :: SpellsDay(fields.dueOn, iso)
  }

  ghost predicate IncomeIsGood(fields: FormFields) {
    exists income :: SpellsIncome(fields.monthlyIncomeNaira, income)
  }

  lemma GoodFields(fields: FormFields)
    ensures NameIsGood(fields) <==> Trim(fields.name) != ""
    ensures TargetIsGood(fields) <==> NairaInputToKobo(fields.amountNaira).Some?
    ensures DayIsGood(fields) <==> DateInputToIso(fields.dueOn).Some?
    ensures IncomeIsGood(fields) <==> !OptionalNairaInputToKobo(fields.monthlyIncomeNaira).Invalid?
  {
    TrimCuts(fields.name);
    TargetGood(fields);
    DayGood(fields);
    IncomeGood(fields);
  }

  lemma TargetGood(fields: FormFields)
    ensures TargetIsGood(fields) <==> NairaInputToKobo(fields.amountNaira).Some?
  {
    var read := NairaInputToKobo(fields.amountNaira);
    if read.Some? { AmountFieldExactly(fields.amountNaira, read.value); }
    forall kobo: nat | SpellsNaira(fields.amountNaira, kobo) && 0 < kobo <= MAX_SAFE_INTEGER ensures read.Some? {
      AmountFieldExactly(fields.amountNaira, kobo);
    }
  }

  lemma DayGood(fields: FormFields)
    ensures DayIsGood(fields) <==> DateInputToIso(fields.dueOn).Some?
  {
    var read := DateInputToIso(fields.dueOn);
    if read.Some? { DateFieldExactly(fields.dueOn, read.value); }
    forall iso | SpellsDay(fields.dueOn, iso) ensures read.Some? { DateFieldExactly(fields.dueOn, iso); }
  }

  lemma IncomeGood(fields: FormFields)
    ensures IncomeIsGood(fields) <==> !OptionalNairaInputToKobo(fields.monthlyIncomeNaira).Invalid?
  {
    var read := OptionalNairaInputToKobo(fields.monthlyIncomeNaira);
    if read.Blank? { IncomeIs(fields.monthlyIncomeNaira, None); }
    if read.Amount? { IncomeIs(fields.monthlyIncomeNaira, Some(read.kobo)); }
    forall income | SpellsIncome(fields.monthlyIncomeNaira, income) ensures !read.Invalid? {
      IncomeIs(fields.monthlyIncomeNaira, income);
    }
  }

  /** The form reports the first of its fields that is not good, and saves exactly when all four are. */
  lemma FirstBadFieldIsReported(fields: FormFields)
    ensures ValidationError(fields) == if !NameIsGood(fields) then Some(NoName)
                                       else if !TargetIsGood(fields) then Some(BadAmount)
                                       else if !DayIsGood(fields) then Some(BadDueDate)
                                       else if !IncomeIsGood(fields) then Some(BadIncome) else None
    ensures BuildUpdateGoalPayload(fields).Some? <==>
            NameIsGood(fields) && TargetIsGood(fields) && DayIsGood(fields) && IncomeIsGood(fields)
  {
    GoodFields(fields);
  }
}
