/** Amounts as the mobile app shows and reads them, and the goal form built on that. */
module Money {
  import opened Wrappers
  import opened Text
  import opened Numerals
  import opened Calendar
  import opened DoubleRounding
  import opened ImportCells

  // ----- naira text -----

  /** `Math.trunc(k / 100)`: the quotient rounded to a double, then truncated. */
  ghost function TruncatedQuotient(k: nat): nat {
    KeepsSign(PowerOfTwo, k as real / 100.0);
    RoundWith(PowerOfTwo, k as real / 100.0).Floor
  }

  /** Rounding never carries the quotient to the next whole naira, for any safe amount. */
  lemma TruncationIsExact(k: nat)
    requires k <= MAX_SAFE_INTEGER
    ensures TruncatedQuotient(k) == k / 100
  {
    HundredthTruncates(PowerOfTwo, k);
  }

  ghost function KoboToNairaInput(kobo: nat): string {
    NairaTextOf(TruncatedQuotient(kobo), kobo % 100)
  }

  function NairaTextOf(whole: nat, fraction: nat): string {
    if fraction == 0 then Decimal(whole) else Decimal(whole) + "." + PadTwo(Decimal(fraction))
  }

  /** Digits, and perhaps a full stop and one or two more digits. */
  function PlainAmount(s: string): Option<nat> {
    var dot := DotAt(s);
    PlainParts(s[..dot], if dot == |s| then None else Some(s[dot + 1..]))
  }

  function PlainParts(whole: string, fraction: Option<string>): Option<nat> {
    if IsPlain(whole) && Cents(fraction).Some? then Some(Value(whole) * 100 + Value(Cents(fraction).value)) else None
  }

  function Normalized(value: string): string {
    WithoutCommas(Trim(value))
  }

  function NairaInputToKobo(value: string): Option<nat> {
    match PlainAmount(Normalized(value))
    case None => None
    case Some(kobo) => SafeAmount(kobo)
  }

  /** An amount that may be left blank, and unlike a required one may be zero. */
  datatype OptionalAmount = Blank | Invalid | Amount(kobo: nat)

  function OptionalNairaInputToKobo(value: string): OptionalAmount {
    if Normalized(value) == "" then Blank
    else
      match PlainAmount(Normalized(value))
      case None => Invalid
      case Some(kobo) => if kobo > MAX_SAFE_INTEGER then Invalid else Amount(kobo)
  }

  lemma {:induction false} NoCommasToDrop(s: string)
    requires ',' !in s
    ensures WithoutCommas(s) == s
  {
    if s == "" {
    } else {
      NoCommasToDrop(s[..|s| - 1]);
      assert s == s[..|s| - 1] + [s[|s| - 1]];
    }
  }

  lemma DotOfDigits(s: string)
    requires AllDigits(s)
    ensures DotAt(s) == |s|
  {
  }

  /** The text of an amount of whole naira, or of naira and two decimals, needs no normalising. */
  lemma DigitsAreNormal(whole: string, cents: string)
    requires IsPlain(whole) && AllDigits(cents) && cents != ""
    ensures Normalized(whole) == whole && Normalized(whole + "." + cents) == whole + "." + cents
  {
    var s := whole + "." + cents;
    assert IsTrimmed(s) by { assert s[0] == whole[0] && s[|s| - 1] == cents[|cents| - 1]; }
    TrimOfTrimmed(whole);
    TrimOfTrimmed(s);
    NoCommasToDrop(whole);
    NoCommasToDrop(s);
  }

  lemma PlainDigits(whole: string)
    requires IsPlain(whole)
    ensures PlainAmount(whole) == Some(Value(whole) * 100)
  {
    DotOfDigits(whole);
    assert whole[..|whole|] == whole;
    ZeroCents("00");
  }

  lemma ZeroCents(s: string)
    requires s == "00"
    ensures AllDigits(s) && Value(s) == 0
  {
    LeadingZero("");
    LeadingZero(['0'] + "");
    assert s == ['0'] + (['0'] + "");
  }

  lemma PlainSplit(whole: string, fraction: string)
    requires '.' !in whole
    ensures PlainAmount(whole + "." + fraction) == PlainParts(whole, Some(fraction))
  {
    DotIsAt(whole, fraction);
    var s := whole + "." + fraction;
    assert s[..|whole|] == whole && s[|whole| + 1..] == fraction;
  }

  lemma PlainDecimals(whole: string, cents: string)
    requires IsPlain(whole) && |cents| == 2 && AllDigits(cents)
    ensures PlainAmount(whole + "." + cents) == Some(Value(whole) * 100 + Value(cents))
  {
    PlainSplit(whole, cents);
    PlainPartsDenote(whole, cents);
  }

  lemma PlainPartsDenote(whole: string, cents: string)
    requires IsPlain(whole) && |cents| == 2 && AllDigits(cents)
    ensures PlainParts(whole, Some(cents)) == Some(Value(whole) * 100 + Value(cents))
  {
  }

  lemma FractionText(fraction: nat) returns (cents: string)
    requires 0 < fraction < 100
    ensures PadTwo(Decimal(fraction)) == cents && |cents| == 2 && AllDigits(cents) && Value(cents) == fraction
  {
    DecimalDenotes(fraction);
    assert OneOrTwoDigits(Decimal(fraction)) by { assert fraction >= 10 ==> |Decimal(fraction / 10)| == 1; }
    PadTwoIs(Decimal(fraction), fraction);
    assert Pow10(2) == 100;
    PaddedDenotes(fraction, 2);
    cents := Padded(fraction, 2);
  }

  predicate IsReadAs(text: string, kobo: nat) {
    Normalized(text) == text && text != "" && PlainAmount(text) == Some(kobo)
  }

  lemma WholeIsRead(text: string, naira: nat, kobo: nat)
    requires text == Decimal(naira) && kobo == naira * 100
    ensures IsReadAs(text, kobo)
  {
    DecimalDenotes(naira);
    DigitsAreNormal(text, "0");
    PlainDigits(text);
  }

  lemma DecimalsAreNormal(text: string, whole: string, cents: string)
    requires IsPlain(whole) && |cents| == 2 && AllDigits(cents) && text == whole + "." + cents
    ensures Normalized(text) == text && text != ""
  {
    DigitsAreNormal(whole, cents);
  }

  lemma DecimalsDenote(text: string, whole: string, cents: string, kobo: nat)
    requires IsPlain(whole) && |cents| == 2 && AllDigits(cents)
    requires text == whole + "." + cents && kobo == Value(whole) * 100 + Value(cents)
    ensures PlainAmount(text) == Some(kobo)
  {
    PlainDecimals(whole, cents);
  }

  lemma DecimalsAreRead(text: string, whole: string, cents: string, kobo: nat)
    requires IsPlain(whole) && |cents| == 2 && AllDigits(cents)
    requires text == whole + "." + cents && kobo == Value(whole) * 100 + Value(cents)
    ensures IsReadAs(text, kobo)
  {
    DecimalsAreNormal(text, whole, cents);
    DecimalsDenote(text, whole, cents, kobo);
  }

  lemma NairaTextIsRead(text: string, naira: nat, fraction: nat, kobo: nat)
    requires fraction < 100 && text == NairaTextOf(naira, fraction) && kobo == naira * 100 + fraction
    ensures IsReadAs(text, kobo)
  {
    if fraction == 0 {
      WholeIsRead(text, naira, kobo);
    } else {
      DecimalDenotes(naira);
      var cents := FractionText(fraction);
      DecimalsAreRead(text, Decimal(naira), cents, kobo);
    }
  }

  lemma ShownText(kobo: nat)
    requires kobo <= MAX_SAFE_INTEGER
    ensures KoboToNairaInput(kobo) == NairaTextOf(kobo / 100, kobo % 100)
  {
    TruncationIsExact(kobo);
  }

  lemma KoboSplits(kobo: nat)
    ensures kobo / 100 * 100 + kobo % 100 == kobo
  {
  }

  /** What the app shows for an amount is read back as that amount. */
  lemma ShownAmountIsRead(kobo: nat, text: string)
    requires kobo <= MAX_SAFE_INTEGER && text == KoboToNairaInput(kobo)
    ensures IsReadAs(text, kobo)
  {
    ShownText(kobo);
    KoboSplits(kobo);
    NairaTextIsRead(text, kobo / 100, kobo % 100, kobo);
  }

  /**
   Every amount from one kobo to the largest safe integer survives being shown and read; zero is refused where
   an amount is required, and kept where it is optional.
   */
  lemma NairaRoundTrip(kobo: nat)
    requires kobo <= MAX_SAFE_INTEGER
    ensures NairaInputToKobo(KoboToNairaInput(kobo)) == if kobo == 0 then None else Some(kobo)
    ensures OptionalNairaInputToKobo(KoboToNairaInput(kobo)) == Amount(kobo)
  {
    ShownAmountIsRead(kobo, KoboToNairaInput(kobo));
  }

  // ----- dates -----

  const NOON := "T12:00:00.000Z"

  function DateInputToIso(value: string): Option<string> {
    if IsoDateOf(value).Some? then Some(value + NOON) else None
  }

  /** A date field is accepted exactly when it is the text of a real day, and becomes noon of that day. */
  lemma DateInputIsRead(value: string)
    ensures DateInputToIso(value).Some? <==> exists d: Date {:trigger IsoDate(d)} ::
        IsDate(d) && d.year < 10000 && value == IsoDate(d)
    ensures DateInputToIso(value).Some? ==> DateInputToIso(value).value[..10] == value
  {
    forall d: Date | IsDate(d) && d.year < 10000 && value == IsoDate(d)
      ensures DateInputToIso(value).Some?
    {
      IsoDateOfInverts(value, d);
    }
    if IsoDateOf(value).Some? {
      var d := IsoDateOf(value).value;
      PaddedOfValue(value[..4]);
      assert Pow10(4) == 10000;
      IsoDateOfInverts(value, d);
      assert (value + NOON)[..10] == value;
    }
  }

  // ----- the goal form -----

  datatype Goal = Goal(name: string, amountTotalKobo: nat, dueDate: string, monthlyIncomeKobo: Option<nat>)

  datatype FormFields = FormFields(name: string, amountNaira: string, dueOn: string, monthlyIncomeNaira: string)

  datatype FormError = NoName | BadAmount | BadDueDate | BadIncome

  function Slice10(s: string): string {
    if |s| <= 10 then s else s[..10]
  }

  ghost function GoalToFormFields(goal: Goal): FormFields {
    FormFields(goal.name, KoboToNairaInput(goal.amountTotalKobo), Slice10(goal.dueDate),
               if goal.monthlyIncomeKobo.None? then "" else KoboToNairaInput(goal.monthlyIncomeKobo.value))
  }

  function ValidationError(fields: FormFields): Option<FormError> {
    if Trim(fields.name) == "" then Some(NoName)
    else if NairaInputToKobo(fields.amountNaira).None? then Some(BadAmount)
    else if DateInputToIso(fields.dueOn).None? then Some(BadDueDate)
    else if OptionalNairaInputToKobo(fields.monthlyIncomeNaira).Invalid? then Some(BadIncome)
    else None
  }

  /** A blank income is sent as an explicit null. */
  function BuildUpdateGoalPayload(fields: FormFields): Option<Goal> {
    if ValidationError(fields).Some? then None
    else
      var income := OptionalNairaInputToKobo(fields.monthlyIncomeNaira);
      Some(Goal(Trim(fields.name), NairaInputToKobo(fields.amountNaira).value, DateInputToIso(fields.dueOn).value,
                if income.Blank? then None else Some(income.kobo)))
  }

  predicate IsSafe(kobo: Option<nat>) {
    kobo.Some? ==> kobo.value <= MAX_SAFE_INTEGER
  }

  predicate DueOnRealDay(goal: Goal) {
    IsoDateOf(Slice10(goal.dueDate)).Some?
  }

  /**
   Opening a goal in the form and saving it unchanged keeps target, due day and income, null and zero apart,
   and trims the name.
   */
  lemma UnchangedFormKeepsGoal(goal: Goal)
    requires 1 <= goal.amountTotalKobo <= MAX_SAFE_INTEGER && IsSafe(goal.monthlyIncomeKobo) && DueOnRealDay(goal)
    requires !IsBlank(goal.name)
    ensures BuildUpdateGoalPayload(GoalToFormFields(goal))
            == Some(Goal(Trim(goal.name), goal.amountTotalKobo, Slice10(goal.dueDate) + NOON, goal.monthlyIncomeKobo))
    ensures IsTrimmed(goal.name) ==> BuildUpdateGoalPayload(GoalToFormFields(goal)).value.name == goal.name
  {
    TrimCuts(goal.name);
    NairaRoundTrip(goal.amountTotalKobo);
    if goal.monthlyIncomeKobo.Some? {
      NairaRoundTrip(goal.monthlyIncomeKobo.value);
    } else {
      BlankIncome("");
    }
    if IsTrimmed(goal.name) { TrimOfTrimmed(goal.name); }
  }

  lemma BlankIncome(s: string)
    requires s == ""
    ensures OptionalNairaInputToKobo(s).Blank?
  {
    TrimOfTrimmed(s);
  }

  /**
   The form saves a goal exactly when its name is not blank, its target is a positive safe amount, and its due
   date falls on a real day.
   */
  lemma UnchangedFormIsSaved(goal: Goal)
    requires goal.amountTotalKobo <= MAX_SAFE_INTEGER && IsSafe(goal.monthlyIncomeKobo)
    ensures BuildUpdateGoalPayload(GoalToFormFields(goal)).Some? <==>
        goal.amountTotalKobo >= 1 && DueOnRealDay(goal) && !IsBlank(goal.name)
  {
    TrimCuts(goal.name);
    NairaRoundTrip(goal.amountTotalKobo);
    if goal.amountTotalKobo >= 1 && DueOnRealDay(goal) && !IsBlank(goal.name) { UnchangedFormKeepsGoal(goal); }
  }
}
