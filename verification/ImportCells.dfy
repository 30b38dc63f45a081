/** What a single cell of a statement means: dates, directions, amounts and notes. */
module ImportCells {
  import opened Wrappers
  import opened Text
  import opened Numerals
  import opened Calendar
  import StabilityEngine

  type Direction = StabilityEngine.Direction

  const MAX_SAFE_INTEGER := 9_007_199_254_740_991

  function LowerChar(c: char): char {
    if 'A' <= c <= 'Z' then (c as int + 32) as char else c
  }

  /** `toLowerCase`, for the letters of the words looked for here. */
  function Lower(s: string): (r: string)
    ensures |r| == |s|
  {
    seq(|s|, i requires 0 <= i < |s| => LowerChar(s[i]))
  }

  // ----- dates -----

  predicate IsIsoShape(t: string) {
    |t| == 10 && AllDigits(t[..4]) && t[4] == '-' && AllDigits(t[5..7]) && t[7] == '-' && AllDigits(t[8..])
  }

  function IsoDateOf(t: string): Option<Date> {
    if !IsIsoShape(t) then None
    else
      var d := Date(Value(t[..4]), Value(t[5..7]), Value(t[8..]));
      if IsDate(d) then Some(d) else None
  }

  /** The parsed date stands for noon of that day, UTC. */
  function ParseDate(value: string): Option<Date> {
    IsoDateOf(Trim(value))
  }

  lemma DigitsOf(s: string, n: nat, width: nat)
    requires n < Pow10(width)
    ensures |s| == width && AllDigits(s) && Value(s) == n <==> s == Padded(n, width)
  {
    PaddedDenotes(n, width);
    if AllDigits(s) { PaddedOfValue(s); }
  }

  lemma IsoPieces(t: string, y: string, m: string, d: string)
    requires |y| == 4 && |m| == 2 && |d| == 2
    ensures t == y + "-" + m + "-" + d
            <==> |t| == 10 && t[..4] == y && t[4] == '-' && t[5..7] == m && t[7] == '-' && t[8..] == d
  {
    var u := y + "-" + m + "-" + d;
    assert u[..4] == y && u[4] == '-' && u[5..7] == m && u[7] == '-' && u[8..] == d;
    if |t| == 10 { assert t == t[..4] + [t[4]] + t[5..7] + [t[7]] + t[8..]; }
  }

  lemma IsoDateOfInverts(t: string, d: Date)
    requires IsDate(d) && d.year < 10000
    ensures IsoDateOf(t) == Some(d) <==> t == IsoDate(d)
  {
    assert Pow10(4) == 10000 && Pow10(2) == 100;
    IsoPieces(t, Padded(d.year, 4), Padded(d.month, 2), Padded(d.day, 2));
    if |t| == 10 {
      DigitsOf(t[..4], d.year, 4);
      DigitsOf(t[5..7], d.month, 2);
      DigitsOf(t[8..], d.day, 2);
    }
  }

  /** Exactly the ISO text of a real day of years 0 to 9999 is accepted. */
  lemma ParseDateInverts(value: string, d: Date)
    requires IsDate(d) && d.year < 10000
    ensures ParseDate(value) == Some(d) <==> Trim(value) == IsoDate(d)
  {
    IsoDateOfInverts(Trim(value), d);
  }

  lemma ParsedDateIsReal(value: string)
    requires ParseDate(value).Some?
    ensures IsDate(ParseDate(value).value) && ParseDate(value).value.year < 10000
  {
    PaddedOfValue(Trim(value)[..4]);
    assert Pow10(4) == 10000;
  }

  predicate OneOrTwoDigits(s: string) {
    1 <= |s| <= 2 && AllDigits(s)
  }

  /** Day, separator, month, separator, four digits of year, with the first separator at `i`. */
  predicate IsDmyShape(t: string, sep: char, i: nat) {
    && i < |t| - 5 && OneOrTwoDigits(t[..i]) && t[i] == sep
    && OneOrTwoDigits(t[i + 1..|t| - 5]) && t[|t| - 5] == sep && AllDigits(t[|t| - 4..])
  }

  /** The separator of a day/month/year or day-month-year text, and where it first stands. */
  function FindDmy(t: string): (r: Option<(char, nat)>)
    ensures r.Some? ==> IsSeparator(r.value.0) && IsDmyShape(t, r.value.0, r.value.1)
  {
    if IsDmyShape(t, '/', 1) then Some(('/', 1))
    else if IsDmyShape(t, '/', 2) then Some(('/', 2))
    else if IsDmyShape(t, '-', 1) then Some(('-', 1))
    else if IsDmyShape(t, '-', 2) then Some(('-', 2))
    else None
  }

  predicate IsSeparator(c: char) {
    c == '/' || c == '-'
  }

  /** `padStart(2, '0')` of one or two digits. */
  function PadTwo(s: string): string {
    if |s| == 1 then "0" + s else s
  }

  function Reordered(t: string, i: nat): string
    requires i < |t| - 5
  {
    t[|t| - 4..] + "-" + PadTwo(t[i + 1..|t| - 5]) + "-" + PadTwo(t[..i])
  }

  function IsoTextOf(t: string): string {
    if IsIsoShape(t) then t
    else
      var dmy := FindDmy(t);
      if dmy.Some? then Reordered(t, dmy.value.1) else t
  }

  /** ISO text is kept, day/month/year and day-month-year are reordered, and anything else is only trimmed. */
  function ToIsoDate(value: string): string {
    IsoTextOf(Trim(value))
  }

  /** What a date cell of a debit and credit statement stands for. */
  ghost predicate Denotes(value: string, d: Date) {
    Trim(value) == IsoDate(d) || exists day, month, sep :: SpelledOut(Trim(value), day, month, sep, d)
  }

  predicate SpelledOut(t: string, day: string, month: string, sep: char, d: Date) {
    && IsSeparator(sep) && OneOrTwoDigits(day) && OneOrTwoDigits(month) && Value(day) == d.day
         && Value(month) == d.month
    && t == day + [sep] + month + [sep] + Padded(d.year, 4)
  }

  lemma PadTwoIs(s: string, n: nat)
    requires OneOrTwoDigits(s) && n < 100
    ensures PadTwo(s) == Padded(n, 2) <==> Value(s) == n
    ensures |PadTwo(s)| == 2 && AllDigits(PadTwo(s))
  {
    if |s| == 1 {
      LeadingZero(s);
      assert "0" + s == ['0'] + s;
    }
    assert Pow10(2) == 100;
    DigitsOf(PadTwo(s), n, 2);
  }

  lemma DmyPieces(t: string, day: string, month: string, year: string, sep: char)
    requires |year| == 4 && t == day + [sep] + month + [sep] + year
    ensures t[..|day|] == day && t[|day|] == sep && t[|day| + 1..|t| - 5] == month && t[|t| - 5] == sep
    ensures t[|t| - 4..] == year
  {
  }

  lemma DmyJoins(t: string, sep: char, i: nat)
    requires IsDmyShape(t, sep, i)
    ensures t == t[..i] + [sep] + t[i + 1..|t| - 5] + [sep] + t[|t| - 4..]
  {
  }

  lemma IsoJoins(y: string, m: string, d: string, y': string, m': string, d': string)
    requires |y| == 4 == |y'| && |m| == 2 == |m'| && |d| == 2 == |d'|
    ensures y + "-" + m + "-" + d == y' + "-" + m' + "-" + d' <==> y == y' && m == m' && d == d'
  {
    IsoPieces(y + "-" + m + "-" + d, y', m', d');
    IsoPieces(y + "-" + m + "-" + d, y, m, d);
  }

  lemma SameFront(front: string, year: string, y: string)
    requires |year| == |y|
    ensures front + year == front + y <==> year == y
  {
    assert (front + year)[|front|..] == year && (front + y)[|front|..] == y;
  }

  lemma ReorderedPieces(t: string, i: nat, y: string, m: string, d: string)
    requires i < |t| - 5 && |PadTwo(t[..i])| == 2 && |PadTwo(t[i + 1..|t| - 5])| == 2 && |y| == 4 && |m| == 2
    requires |d| == 2
    ensures Reordered(t, i) == y + "-" + m + "-" + d <==>
        t[|t| - 4..] == y && PadTwo(t[i + 1..|t| - 5]) == m && PadTwo(t[..i]) == d
  {
    IsoJoins(t[|t| - 4..], PadTwo(t[i + 1..|t| - 5]), PadTwo(t[..i]), y, m, d);
  }

  lemma ReorderedDate(t: string, sep: char, i: nat, d: Date)
    requires IsDmyShape(t, sep, i) && IsSeparator(sep) && IsDate(d) && d.year < 10000
    ensures Reordered(t, i) == IsoDate(d) <==> SpelledOut(t, t[..i], t[i + 1..|t| - 5], sep, d)
  {
    var day, month := t[..i], t[i + 1..|t| - 5];
    PadTwoIs(day, d.day);
    PadTwoIs(month, d.month);
    ReorderedPieces(t, i, Padded(d.year, 4), Padded(d.month, 2), Padded(d.day, 2));
    DmyJoins(t, sep, i);
    SameFront(day + [sep] + month + [sep], t[|t| - 4..], Padded(d.year, 4));
  }

  lemma SpelledOutShape(t: string, day: string, month: string, sep: char, d: Date)
    requires SpelledOut(t, day, month, sep, d)
    ensures FindDmy(t) == Some((sep, |day|)) && t[..|day|] == day && t[|day| + 1..|t| - 5] == month && !IsIsoShape(t)
  {
    DmyPieces(t, day, month, Padded(d.year, 4), sep);
    assert t[..4][|day|] == sep && t[0] == day[0];
    if |day| == 2 { assert t[1] == day[1] && IsDigit(day[1]); }
  }

  lemma ReorderedEnds(t: string, sep: char, i: nat)
    requires IsDmyShape(t, sep, i)
    ensures var r := Reordered(t, i); |r| == 10 && IsDigit(r[0]) && IsDigit(r[9])
  {
    PadTwoIs(t[..i], 0);
    PadTwoIs(t[i + 1..|t| - 5], 0);
    var r := Reordered(t, i);
    assert r[0] == t[|t| - 4] && r[9] == PadTwo(t[..i])[1];
  }

  lemma IsoTextKeepsTrimmed(t: string)
    requires IsTrimmed(t)
    ensures IsTrimmed(IsoTextOf(t))
  {
    var dmy := FindDmy(t);
    if !IsIsoShape(t) && dmy.Some? { ReorderedEnds(t, dmy.value.0, dmy.value.1); }
  }

  lemma IsoTextIsTrimmed(value: string)
    ensures Trim(ToIsoDate(value)) == ToIsoDate(value)
  {
    TrimCuts(value);
    IsoTextKeepsTrimmed(Trim(value));
    TrimOfTrimmed(ToIsoDate(value));
  }

  /** Translating a date cell and reading it back gives the day it stands for, or none if it stands for no real day. */
  lemma TranslatedDate(value: string, d: Date)
    requires IsDate(d) && d.year < 10000
    ensures ParseDate(ToIsoDate(value)) == Some(d) <==> Denotes(value, d)
  {
    var t := Trim(value);
    var dmy := FindDmy(t);
    IsoTextIsTrimmed(value);
    IsoDateOfInverts(ToIsoDate(value), d);
    if !IsIsoShape(t) && dmy.Some? { ReorderedDate(t, dmy.value.0, dmy.value.1, d); }
    forall day, month, sep | SpelledOut(t, day, month, sep, d) ensures ToIsoDate(value) == IsoDate(d) {
      SpelledOutShape(t, day, month, sep, d);
    }
    IsoDateOfInverts(t, d);
  }

  // ----- directions -----

  function ParseDirection(value: string): Option<Direction> {
    DirectionOf(Lower(Trim(value)))
  }

  function DirectionOf(word: string): Option<Direction> {
    if word == "income" || word == "in" || word == "credit" then Some(StabilityEngine.In)
    else if word == "expense" || word == "out" || word == "debit" then Some(StabilityEngine.Out)
    else None
  }

  /** A word of small letters. */
  predicate IsWord(s: string) {
    forall i | 0 <= i < |s| :: 'a' <= s[i] <= 'z'
  }

  lemma WordsAreKept(s: string)
    requires IsWord(s)
    ensures Trim(s) == s && Lower(s) == s
  {
    TrimOfTrimmed(s);
  }

  // ----- amounts -----

  /** Drops a leading `NGN` in any case, or a naira sign, and the white space after it. */
  function StripCurrency(s: string): string {
    if |s| >= 3 && Lower(s[..3]) == "ngn" then TrimStart(s[3..])
    else if s != "" && s[0] == '\U{20A6}' then TrimStart(s[1..])
    else s
  }

  predicate AmountPresent(value: string) {
    StripCurrency(Trim(value)) != ""
  }

  predicate IsPlain(w: string) {
    w != "" && AllDigits(w)
  }

  /** One to three digits, then groups of a comma and three digits. */
  predicate IsGrouped(w: string) {
    |w| >= 5 && w[|w| - 4] == ',' && AllDigits(w[|w| - 3..])
    && ((|w| <= 7 && AllDigits(w[..|w| - 4])) || IsGrouped(w[..|w| - 4]))
  }

  function WithoutCommas(w: string): string {
    if w == "" then ""
    else if w[|w| - 1] == ',' then WithoutCommas(w[..|w| - 1])
    else WithoutCommas(w[..|w| - 1]) + [w[|w| - 1]]
  }

  /** Where the first full stop is, or the end of the text. */
  function DotAt(s: string): (i: nat)
    ensures i <= |s| && '.' !in s[..i] && (i < |s| ==> s[i] == '.')
  {
    if s == "" || s[0] == '.' then 0
    else
      var i := DotAt(s[1..]) + 1;
      assert s[..i] == [s[0]] + s[1..][..i - 1];
      i
  }

  lemma {:induction false} CommasLeaveDigits(w: string)
    requires forall i | 0 <= i < |w| :: IsDigit(w[i]) || w[i] == ','
    ensures AllDigits(WithoutCommas(w))
  {
    if w == "" {
    } else {
      CommasLeaveDigits(w[..|w| - 1]);
    }
  }

  lemma {:induction false} GroupedIsDigitsAndCommas(w: string)
    requires IsGrouped(w)
    ensures forall i | 0 <= i < |w| :: IsDigit(w[i]) || w[i] == ','
  {
    assert w == w[..|w| - 4] + [w[|w| - 4]] + w[|w| - 3..];
    if |w| <= 7 && AllDigits(w[..|w| - 4]) {
    } else {
      GroupedIsDigitsAndCommas(w[..|w| - 4]);
    }
  }

  /** The digits of a whole part, plain or grouped. */
  function WholeDigits(w: string): (digits: Option<string>)
    ensures digits.Some? ==> AllDigits(digits.value)
  {
    if IsPlain(w) then Some(w)
    else if IsGrouped(w) then
      GroupedIsDigitsAndCommas(w);
      CommasLeaveDigits(w);
      Some(WithoutCommas(w))
    else None
  }

  /** `padEnd(2, '0')` of the digits after the full stop, one or two, or none. */
  function Cents(fraction: Option<string>): (digits: Option<string>)
    ensures digits.Some? ==> AllDigits(digits.value) && |digits.value| == 2
  {
    if fraction.None? then Some("00")
    else if !OneOrTwoDigits(fraction.value) then None
    else Some(if |fraction.value| == 1 then fraction.value + "0" else fraction.value)
  }

  function AmountOfParts(whole: string, fraction: Option<string>): (r: Option<nat>)
    ensures r.Some? ==> 0 < r.value <= MAX_SAFE_INTEGER
  {
    var digits, cents := WholeDigits(whole), Cents(fraction);
    if digits.None? || cents.None? then None else SafeAmount(Value(digits.value) * 100 + Value(cents.value))
  }

  function SafeAmount(kobo: nat): Option<nat> {
    if 0 < kobo <= MAX_SAFE_INTEGER then Some(kobo) else None
  }

  function AmountOf(s: string): (r: Option<nat>)
    ensures r.Some? ==> 0 < r.value <= MAX_SAFE_INTEGER
  {
    var dot := DotAt(s);
    AmountOfParts(s[..dot], if dot == |s| then None else Some(s[dot + 1..]))
  }

  function ParseAmountKobo(value: string): (r: Option<nat>)
    ensures r.Some? ==> 0 < r.value <= MAX_SAFE_INTEGER
  {
    AmountOf(StripCurrency(Trim(value)))
  }

  lemma TrimIsTrimmed(value: string)
    ensures Trim(Trim(value)) == Trim(value)
  {
    TrimCuts(value);
    TrimOfTrimmed(Trim(value));
  }

  lemma TrimmedAmount(value: string)
    ensures ParseAmountKobo(Trim(value)) == ParseAmountKobo(value) && AmountPresent(Trim(value)) == AmountPresent(value)
  {
    TrimIsTrimmed(value);
  }

  /** Digits with a comma before every third from the right. */
  function Grouped(digits: string): string {
    if |digits| <= 3 then digits else Grouped(digits[..|digits| - 3]) + "," + digits[|digits| - 3..]
  }

  function NairaText(kobo: nat, grouped: bool): string {
    (if grouped then Grouped(Decimal(kobo / 100)) else Decimal(kobo / 100)) + "." + Padded(kobo % 100, 2)
  }

  lemma {:induction false} WithoutCommasOfDigits(w: string)
    requires AllDigits(w)
    ensures WithoutCommas(w) == w
  {
    if w == "" {
    } else {
      WithoutCommasOfDigits(w[..|w| - 1]);
      assert w == w[..|w| - 1] + [w[|w| - 1]];
    }
  }

  lemma {:induction false} WithoutCommasConcat(a: string, b: string)
    ensures WithoutCommas(a + b) == WithoutCommas(a) + WithoutCommas(b)
  {
    if b == "" {
      assert a + b == a;
    } else {
      assert (a + b)[..|a + b| - 1] == a + b[..|b| - 1];
      WithoutCommasConcat(a, b[..|b| - 1]);
    }
  }

  lemma GroupAppended(front: string, last: string)
    requires |last| == 3 && AllDigits(last) && front != "" && ((|front| <= 3 && AllDigits(front)) || IsGrouped(front))
    ensures IsGrouped(front + "," + last) && WithoutCommas(front + "," + last) == WithoutCommas(front) + last
  {
    var w := front + "," + last;
    assert w[|w| - 3..] == last && w[..|w| - 4] == front && w[|w| - 4] == ',';
    WithoutCommasConcat(front + ",", last);
    WithoutCommasConcat(front, ",");
    WithoutCommasOfDigits(last);
    assert ","[..0] == "";
    assert WithoutCommas(",") == "";
    assert WithoutCommas(front) + "" == WithoutCommas(front);
  }

  lemma {:induction false} GroupedDigits(digits: string)
    requires AllDigits(digits) && digits != ""
    ensures WithoutCommas(Grouped(digits)) == digits && Grouped(digits) != "" && IsDigit(Grouped(digits)[0])
    ensures if |digits| <= 3 then Grouped(digits) == digits else IsGrouped(Grouped(digits))
  {
    if |digits| <= 3 {
      WithoutCommasOfDigits(digits);
    } else {
      var front, last := digits[..|digits| - 3], digits[|digits| - 3..];
      GroupedDigits(front);
      GroupAppended(Grouped(front), last);
      assert digits == front + last;
    }
  }

  lemma DotIsAt(a: string, b: string)
    requires '.' !in a
    ensures DotAt(a + "." + b) == |a|
  {
    var s := a + "." + b;
    assert s[|a|] == '.';
    assert forall i | 0 <= i < |a| :: s[i] == a[i] && a[i] in a;
    assert forall i | |a| < i <= |s| :: s[..i][|a|] == '.';
  }

  lemma {:induction false} GroupedHasNoDot(digits: string)
    requires AllDigits(digits)
    ensures '.' !in Grouped(digits)
  {
    if |digits| <= 3 {
    } else {
      GroupedHasNoDot(digits[..|digits| - 3]);
    }
  }

  lemma StripNothing(s: string)
    requires s != "" && IsDigit(s[0])
    ensures StripCurrency(s) == s
  {
    assert |s| >= 3 ==> Lower(s[..3])[0] == LowerChar(s[0]) && "ngn"[0] == 'n';
  }

  lemma StripNgn(s: string)
    requires s != "" && !IsSpace(s[0])
    ensures StripCurrency("NGN " + s) == s && StripCurrency("\U{20A6}" + s) == s
  {
    var a, b := "NGN " + s, "\U{20A6}" + s;
    assert Lower(a[..3]) == "ngn" by { assert a[..3] == "NGN"; }
    assert a[3..] == " " + s && (" " + s)[1..] == s && TrimStart(s) == s;
    assert b[1..] == s;
    assert |b| >= 3 ==> Lower(b[..3])[0] == '\U{20A6}' && "ngn"[0] == 'n';
  }

  lemma WholeOfText(digits: string, grouped: bool)
    requires AllDigits(digits) && digits != ""
    ensures WholeDigits(if grouped then Grouped(digits) else digits) == Some(digits)
  {
    GroupedDigits(digits);
    if grouped && |digits| > 3 { assert !IsDigit(Grouped(digits)[|Grouped(digits)| - 4]); }
  }

  predicate IsPrefix(prefix: string) {
    prefix == "" || prefix == "NGN " || prefix == "\U{20A6}"
  }

  lemma PrefixedIsTrimmed(prefix: string, text: string)
    requires IsPrefix(prefix) && text != "" && IsDigit(text[0]) && IsDigit(text[|text| - 1])
    ensures Trim(prefix + text) == prefix + text
  {
    var s := prefix + text;
    assert s[|s| - 1] == text[|text| - 1];
    assert s[0] == if prefix == "" then text[0] else prefix[0];
    TrimOfTrimmed(s);
  }

  lemma PrefixedText(prefix: string, text: string)
    requires IsPrefix(prefix) && text != "" && IsDigit(text[0])
    ensures StripCurrency(prefix + text) == text
  {
    if prefix == "" {
      assert prefix + text == text;
      StripNothing(text);
    } else {
      StripNgn(text);
    }
  }

  lemma PartsOf(whole: string, fraction: string)
    requires '.' !in whole
    ensures AmountOf(whole + "." + fraction) == AmountOfParts(whole, Some(fraction))
  {
    var s := whole + "." + fraction;
    DotIsAt(whole, fraction);
    assert s[..|whole|] == whole && s[|whole| + 1..] == fraction;
  }

  lemma PartsDenote(whole: string, digits: string, cents: string)
    requires WholeDigits(whole) == Some(digits) && AllDigits(digits) && AllDigits(cents) && |cents| == 2
    ensures AmountOfParts(whole, Some(cents)) == SafeAmount(Value(digits) * 100 + Value(cents))
  {
  }

  /** What an amount of whole digits, grouped or not, and two decimals is read as. */
  lemma AmountOfDigits(digits: string, cents: string, grouped: bool)
    requires AllDigits(digits) && digits != "" && AllDigits(cents) && |cents| == 2
    ensures AmountOf((if grouped then Grouped(digits) else digits) + "." + cents)
            == SafeAmount(Value(digits) * 100 + Value(cents))
  {
    WholeOfText(digits, grouped);
    GroupedHasNoDot(digits);
    var whole := if grouped then Grouped(digits) else digits;
    PartsOf(whole, cents);
    PartsDenote(whole, digits, cents);
  }

  lemma NairaTextEnds(kobo: nat, grouped: bool)
    ensures var text := NairaText(kobo, grouped); text != "" && IsDigit(text[0]) && IsDigit(text[|text| - 1])
  {
    var digits := Decimal(kobo / 100);
    GroupedDigits(digits);
    var whole, cents := if grouped then Grouped(digits) else digits, Padded(kobo % 100, 2);
    assert (whole + "." + cents)[0] == whole[0] && (whole + "." + cents)[|whole| + 2] == cents[1];
  }

  lemma KoboOfNumerals(kobo: nat)
    ensures Value(Decimal(kobo / 100)) * 100 + Value(Padded(kobo % 100, 2)) == kobo
  {
    DecimalDenotes(kobo / 100);
    assert Pow10(2) == 100;
    PaddedDenotes(kobo % 100, 2);
  }

  lemma AmountOfNairaText(kobo: nat, grouped: bool)
    ensures AmountOf(NairaText(kobo, grouped)) == SafeAmount(kobo)
  {
    AmountOfDigits(Decimal(kobo / 100), Padded(kobo % 100, 2), grouped);
    KoboOfNumerals(kobo);
  }

  /**
   Every amount from one kobo to the largest safe integer is read back from its naira text, grouped or not,
   with or without a currency.
   */
  lemma AmountRoundTrip(kobo: nat, grouped: bool, prefix: string)
    requires 1 <= kobo <= MAX_SAFE_INTEGER && IsPrefix(prefix)
    ensures ParseAmountKobo(prefix + NairaText(kobo, grouped)) == Some(kobo)
  {
    var text := NairaText(kobo, grouped);
    NairaTextEnds(kobo, grouped);
    PrefixedIsTrimmed(prefix, text);
    PrefixedText(prefix, text);
    AmountOfNairaText(kobo, grouped);
  }

  // ----- notes -----

  /** Every run of white space becomes one blank. */
  function CollapseSpaces(s: string): string {
    if s == "" then ""
    else if !IsSpace(s[0]) then [s[0]] + CollapseSpaces(s[1..])
    else if |s| > 1 && IsSpace(s[1]) then CollapseSpaces(s[1..])
    else " " + CollapseSpaces(s[1..])
  }

  function NoteOf(value: string): string {
    CollapseSpaces(Trim(value))
  }

  function WithoutSpaces(s: string): string {
    if s == "" then "" else (if IsSpace(s[0]) then "" else [s[0]]) + WithoutSpaces(s[1..])
  }

  lemma {:induction false} CollapseKeepsText(s: string)
    ensures WithoutSpaces(CollapseSpaces(s)) == WithoutSpaces(s)
  {
    if s == "" {
    } else {
      CollapseKeepsText(s[1..]);
      var rest := CollapseSpaces(s[1..]);
      if !IsSpace(s[0]) {
        assert ([s[0]] + rest)[1..] == rest;
      } else {
        assert (" " + rest)[1..] == rest;
      }
    }
  }

  /** White space is single blanks. */
  ghost predicate SingleBlanks(r: string) {
    && (forall i | 0 <= i < |r| && IsSpace(r[i]) :: r[i] == ' ')
    && (forall i, j | 0 <= i < j < |r| && j == i + 1 && IsSpace(r[i]) :: !IsSpace(r[j]))
  }

  lemma OneMoreCharacter(c: char, rest: string)
    requires SingleBlanks(rest) && (IsSpace(c) ==> c == ' ' && (rest != "" ==> !IsSpace(rest[0])))
    ensures SingleBlanks([c] + rest)
  {
    var r := [c] + rest;
    assert forall i | 0 < i < |r| :: r[i] == rest[i - 1];
  }

  lemma {:induction false} CollapseLeavesSingleBlanks(s: string)
    ensures SingleBlanks(CollapseSpaces(s))
    ensures s != "" ==> CollapseSpaces(s) != "" && IsSpace(CollapseSpaces(s)[0]) == IsSpace(s[0])
    ensures s != "" ==> IsSpace(CollapseSpaces(s)[|CollapseSpaces(s)| - 1]) == IsSpace(s[|s| - 1])
  {
    if s == "" {
    } else {
      var rest := CollapseSpaces(s[1..]);
      CollapseLeavesSingleBlanks(s[1..]);
      if !IsSpace(s[0]) {
        OneMoreCharacter(s[0], rest);
      } else if |s| == 1 || !IsSpace(s[1]) {
        OneMoreCharacter(' ', rest);
      }
    }
  }

  lemma {:induction false} TrimKeepsText(s: string)
    ensures WithoutSpaces(TrimStart(s)) == WithoutSpaces(s)
  {
    if s == "" || !IsSpace(s[0]) {
    } else {
      TrimKeepsText(s[1..]);
    }
  }

  lemma {:induction false} LastSpaceIsDropped(s: string, c: char)
    requires IsSpace(c)
    ensures WithoutSpaces(s + [c]) == WithoutSpaces(s)
  {
    if s == "" {
      assert s + [c] == [c] && [c][1..] == "";
    } else {
      assert (s + [c])[1..] == s[1..] + [c];
      LastSpaceIsDropped(s[1..], c);
    }
  }

  lemma {:induction false} TrimEndKeepsText(s: string)
    ensures WithoutSpaces(TrimEnd(s)) == WithoutSpaces(s)
  {
    if s == "" || !IsSpace(s[|s| - 1]) {
    } else {
      TrimEndKeepsText(s[..|s| - 1]);
      LastSpaceIsDropped(s[..|s| - 1], s[|s| - 1]);
      assert s == s[..|s| - 1] + [s[|s| - 1]];
    }
  }

  /** A note has the text of its description, without white space at its ends, and single blanks between its words. */
  lemma NoteIsNormal(value: string)
    ensures WithoutSpaces(NoteOf(value)) == WithoutSpaces(value)
    ensures IsTrimmed(NoteOf(value)) && SingleBlanks(NoteOf(value))
  {
    TrimKeepsText(value);
    TrimEndKeepsText(TrimStart(value));
    CollapseKeepsText(Trim(value));
    CollapseLeavesSingleBlanks(Trim(value));
    TrimCuts(value);
  }

  /** The length in UTF-16 code units, which is what `length` counts. */
  function Utf16Length(s: string): nat {
    if s == "" then 0 else (if s[0] > '\U{FFFF}' then 2 else 1) + Utf16Length(s[1..])
  }
}
