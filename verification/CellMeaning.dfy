/** Which texts a cell of a statement may have for a word, a day or an amount. */
module CellMeaning {
  import opened Wrappers
  import opened Text
  import opened Numerals
  import opened Calendar
  import opened ImportCells
  import StabilityEngine

  // ----- white space around a text -----

  /** The cell is this text with white space around it, or none. */
  ghost predicate Surrounds(cell: string, text: string) {
    exists before, after :: IsAround(cell, before, text, after)
  }

  predicate IsAround(cell: string, before: string, text: string, after: string) {
    IsBlank(before) && IsBlank(after) && cell == before + text + after
  }

  lemma {:induction false} TrimStartParts(s: string) returns (before: string)
    ensures IsBlank(before) && s == before + TrimStart(s)
  {
    if s == "" || !IsSpace(s[0]) {
      before := "";
    } else {
      var rest := TrimStartParts(s[1..]);
      before := [s[0]] + rest;
    }
  }

  lemma {:induction false} TrimEndParts(s: string) returns (after: string)
    ensures IsBlank(after) && s == TrimEnd(s) + after
  {
    if s == "" || !IsSpace(s[|s| - 1]) {
      after := "";
    } else {
      var front := TrimEndParts(s[..|s| - 1]);
      after := front + [s[|s| - 1]];
      assert s == s[..|s| - 1] + [s[|s| - 1]];
    }
  }

  lemma {:induction false} BlankIsTrimmedOff(before: string, text: string)
    requires IsBlank(before) && (text != "" ==> !IsSpace(text[0]))
    ensures TrimStart(before + text) == text
  {
    if before == "" {
      assert before + text == text;
    } else {
      assert (before + text)[1..] == before[1..] + text;
      BlankIsTrimmedOff(before[1..], text);
    }
  }

  lemma {:induction false} TrailingBlankIsTrimmedOff(text: string, after: string)
    requires IsBlank(after) && (text != "" ==> !IsSpace(text[|text| - 1]))
    ensures TrimEnd(text + after) == text
  {
    if after == "" {
      assert text + after == text;
    } else {
      assert (text + after)[..|text + after| - 1] == text + after[..|after| - 1];
      TrailingBlankIsTrimmedOff(text, after[..|after| - 1]);
    }
  }

  /** Trimming takes off exactly the white space around a text. */
  lemma TrimIs(cell: string, text: string)
    requires text != "" && IsTrimmed(text)
    ensures Trim(cell) == text <==> Surrounds(cell, text)
  {
    if Trim(cell) == text {
      var before := TrimStartParts(cell);
      var after := TrimEndParts(TrimStart(cell));
      assert IsAround(cell, before, text, after);
    }
    forall before, after | IsAround(cell, before, text, after) ensures Trim(cell) == text {
      assert cell == before + (text + after) && (text + after)[0] == text[0];
      BlankIsTrimmedOff(before, text + after);
      TrailingBlankIsTrimmedOff(text, after);
    }
  }

  // ----- words -----

  predicate IsLetterOf(c: char, letter: char) {
    c == letter || ('a' <= letter <= 'z' && c as int == letter as int - 32)
  }

  /** The same letters, large or small. */
  predicate SameLetters(text: string, word: string) {
    |text| == |word| && forall i | 0 <= i < |word| :: IsLetterOf(text[i], word[i])
  }

  predicate IsPhrase(word: string) {
    && word != "" && word[0] != ' ' && word[|word| - 1] != ' '
    && forall i | 0 <= i < |word| :: word[i] == ' ' || 'a' <= word[i] <= 'z'
  }

  lemma LowerIs(text: string, word: string)
    requires forall i | 0 <= i < |word| :: word[i] == ' ' || 'a' <= word[i] <= 'z'
    ensures Lower(text) == word <==> SameLetters(text, word)
  {
    if SameLetters(text, word) {
      forall i | 0 <= i < |text| ensures Lower(text)[i] == word[i] { assert IsLetterOf(text[i], word[i]); }
    }
  }

  /** The cell is this word, in large or small letters, with white space around it, or none. */
  ghost predicate Spells(cell: string, word: string) {
    exists text :: SameLetters(text, word) && Surrounds(cell, text)
  }

  lemma LettersAreTrimmed(text: string, word: string)
    requires IsPhrase(word) && SameLetters(text, word)
    ensures text != "" && IsTrimmed(text)
  {
    assert IsLetterOf(text[0], word[0]) && IsLetterOf(text[|text| - 1], word[|word| - 1]);
  }

  lemma SpellsIs(cell: string, word: string)
    requires IsPhrase(word)
    ensures Lower(Trim(cell)) == word <==> Spells(cell, word)
  {
    LowerIs(Trim(cell), word);
    if SameLetters(Trim(cell), word) {
      LettersAreTrimmed(Trim(cell), word);
      TrimIs(cell, Trim(cell));
    }
    forall text | SameLetters(text, word) && Surrounds(cell, text) ensures Trim(cell) == text {
      LettersAreTrimmed(text, word);
      TrimIs(cell, text);
    }
  }

  /** A type cell means an inflow exactly for these three words, and an outflow for these. */
  lemma DirectionExactly(cell: string)
    ensures ParseDirection(cell) == Some(StabilityEngine.In)
            <==> Spells(cell, "income") || Spells(cell, "in") || Spells(cell, "credit")
    ensures ParseDirection(cell) == Some(StabilityEngine.Out)
            <==> Spells(cell, "expense") || Spells(cell, "out") || Spells(cell, "debit")
  {
    SpellsIs(cell, "income");
    SpellsIs(cell, "in");
    SpellsIs(cell, "credit");
    SpellsIs(cell, "expense");
    SpellsIs(cell, "out");
    SpellsIs(cell, "debit");
    assert "income"[0] == "in"[0] == 'i' && "credit"[0] == 'c' && "expense"[0] == 'e' && "out"[0] == 'o'
           && "debit"[0] == 'd';
  }

  // ----- days -----

  lemma IsoDateIsTrimmed(d: Date)
    requires IsDate(d) && d.year < 10000
    ensures IsoDate(d) != "" && IsTrimmed(IsoDate(d))
  {
    assert IsoDate(d)[0] == Padded(d.year, 4)[0] && IsoDate(d)[9] == Padded(d.day, 2)[1];
  }

  /** A date cell means a day exactly when it is that day's ISO text, white space around it apart. */
  lemma DayExactly(cell: string, d: Date)
    requires IsDate(d) && d.year < 10000
    ensures ParseDate(cell) == Some(d) <==> Surrounds(cell, IsoDate(d))
  {
    ParseDateInverts(cell, d);
    IsoDateIsTrimmed(d);
    TrimIs(cell, IsoDate(d));
  }

  // ----- amounts -----

  function KoboOf(digits: string, cents: string): nat
    requires AllDigits(digits) && AllDigits(cents)
  {
    Value(digits) * 100 + (if |cents| == 1 then 10 * Value(cents) else Value(cents))
  }

  /** Naira digits, grouped in threes or not, and after a full stop one or two digits of kobo, or neither. */
  predicate IsAmount(text: string, digits: string, grouped: bool, cents: string) {
    && digits != "" && AllDigits(digits) && AllDigits(cents) && |cents| <= 2 && (grouped ==> |digits| > 3)
    && text == (if grouped then Grouped(digits) else digits) + (if cents == "" then "" else "." + cents)
  }

  ghost predicate IsAmountOf(text: string, kobo: nat) {
    exists digits, grouped, cents :: IsAmount(text, digits, grouped, cents) && KoboOf(digits, cents) == kobo
  }

  lemma {:induction false} GroupedBack(w: string)
    requires IsGrouped(w)
    ensures var digits := WithoutCommas(w); w == Grouped(digits) && |digits| > 3
  {
    var front, last := w[..|w| - 4], w[|w| - 3..];
    assert w == front + "," + last;
    if |w| <= 7 && AllDigits(front) {
      GroupAppended(front, last);
      WithoutCommasOfDigits(front);
      UngroupedLast(front, last, front);
    } else {
      GroupedBack(front);
      GroupAppended(front, last);
      UngroupedLast(WithoutCommas(front), last, front);
    }
  }

  lemma UngroupedLast(digits: string, last: string, front: string)
    requires |last| == 3 && digits != "" && front == Grouped(digits)
    ensures Grouped(digits + last) == front + "," + last
  {
    assert (digits + last)[..|digits + last| - 3] == digits && (digits + last)[|digits + last| - 3..] == last;
  }

  lemma ZeroIsNothing(cents: string)
    requires cents == "00"
    ensures AllDigits(cents) && Value(cents) == 0
  {
    assert cents[..1] == "0" && "0"[..0] == "";
    assert Value(cents) == Value(cents[..1]) * 10 + ValueOfDigit(cents[1]);
  }

  lemma ZeroAppended(d: string)
    requires |d| == 1 && AllDigits(d)
    ensures AllDigits(d + "0") && Value(d + "0") == 10 * Value(d)
  {
    assert (d + "0")[..1] == d;
  }

  lemma CentsAre(cents: string)
    requires AllDigits(cents) && 1 <= |cents| <= 2
    ensures Cents(Some(cents)).Some?
    ensures Value(Cents(Some(cents)).value) == if |cents| == 1 then 10 * Value(cents) else Value(cents)
  {
    if |cents| == 1 { ZeroAppended(cents); }
  }

  lemma WholeIsRead(whole: string, digits: string)
    requires WholeDigits(whole) == Some(digits) && AllDigits(digits) && '.' !in whole
    ensures AmountOf(whole) == SafeAmount(KoboOf(digits, ""))
  {
    assert DotAt(whole) == |whole| && whole[..|whole|] == whole;
    ZeroIsNothing("00");
  }

  lemma DecimalsAreRead(whole: string, digits: string, cents: string)
    requires WholeDigits(whole) == Some(digits) && AllDigits(digits) && '.' !in whole
    requires AllDigits(cents) && 1 <= |cents| <= 2
    ensures AmountOf(whole + "." + cents) == SafeAmount(KoboOf(digits, cents))
  {
    PartsOf(whole, cents);
    CentsAre(cents);
  }

  lemma AmountIsRead(text: string, digits: string, grouped: bool, cents: string)
    requires IsAmount(text, digits, grouped, cents)
    ensures AmountOf(text) == SafeAmount(KoboOf(digits, cents))
  {
    WholeOfText(digits, grouped);
    GroupedHasNoDot(digits);
    var whole := if grouped then Grouped(digits) else digits;
    if cents == "" {
      assert text == whole;
      WholeIsRead(whole, digits);
    } else {
      assert text == whole + "." + cents;
      DecimalsAreRead(whole, digits, cents);
    }
  }

  lemma ReadWhole(whole: string) returns (digits: string, grouped: bool)
    requires WholeDigits(whole).Some?
    ensures digits == WholeDigits(whole).value && digits != "" && AllDigits(digits) && (grouped ==> |digits| > 3)
    ensures whole == if grouped then Grouped(digits) else digits
  {
    digits, grouped := WholeDigits(whole).value, !IsPlain(whole);
    if grouped { GroupedBack(whole); }
  }

  lemma ReadWholeIsAmount(whole: string, kobo: nat)
    requires AmountOfParts(whole, None) == Some(kobo)
    ensures IsAmountOf(whole, kobo)
  {
    var digits, grouped := ReadWhole(whole);
    ZeroIsNothing("00");
    assert IsAmount(whole, digits, grouped, "") && KoboOf(digits, "") == kobo;
  }

  lemma ReadDecimalsAreAmount(whole: string, cents: string, kobo: nat)
    requires AmountOfParts(whole, Some(cents)) == Some(kobo)
    ensures IsAmountOf(whole + "." + cents, kobo)
  {
    var digits, grouped := ReadWhole(whole);
    CentsAre(cents);
    assert whole + "." + cents == whole + ("." + cents);
    assert IsAmount(whole + "." + cents, digits, grouped, cents) && KoboOf(digits, cents) == kobo;
  }

  lemma ReadIsAmount(text: string, kobo: nat)
    requires AmountOf(text) == Some(kobo)
    ensures IsAmountOf(text, kobo) && 0 < kobo <= MAX_SAFE_INTEGER
  {
    var dot := DotAt(text);
    if dot == |text| {
      assert text[..dot] == text;
      ReadWholeIsAmount(text, kobo);
    } else {
      assert text == text[..dot] + "." + text[dot + 1..];
      ReadDecimalsAreAmount(text[..dot], text[dot + 1..], kobo);
    }
  }

  lemma AmountTextExactly(text: string, kobo: nat)
    ensures AmountOf(text) == Some(kobo) <==> IsAmountOf(text, kobo) && 0 < kobo <= MAX_SAFE_INTEGER
  {
    if AmountOf(text) == Some(kobo) { ReadIsAmount(text, kobo); }
    if IsAmountOf(text, kobo) && 0 < kobo <= MAX_SAFE_INTEGER {
      var digits, grouped, cents :| IsAmount(text, digits, grouped, cents) && KoboOf(digits, cents) == kobo;
      AmountIsRead(text, digits, grouped, cents);
    }
  }

  predicate IsCurrency(s: string) {
    SameLetters(s, "ngn") || s == "\U{20A6}"
  }

  /** The amount with a currency and white space before it, or without. */
  predicate IsPriced(t: string, currency: string, space: string, amount: string) {
    t == currency + space + amount && IsBlank(space) && (IsCurrency(currency) || (currency == "" && space == ""))
  }

  lemma CurrencyIsStripped(t: string, currency: string, space: string, amount: string)
    requires IsPriced(t, currency, space, amount) && amount != "" && IsDigit(amount[0])
    ensures StripCurrency(t) == amount
  {
    if currency == "" {
      assert t == amount;
      StripNothing(t);
    } else {
      assert t[|currency|..] == space + amount && t[..|currency|] == currency;
      BlankIsTrimmedOff(space, amount);
      if SameLetters(currency, "ngn") {
        LowerIs(currency, "ngn");
      } else {
        assert t[0] == '\U{20A6}';
        assert |t| >= 3 ==> Lower(t[..3])[0] == '\U{20A6}' && "ngn"[0] == 'n';
      }
    }
  }

  lemma PrefixIsCurrency(t: string, n: nat) returns (space: string)
    requires n <= |t| && IsCurrency(t[..n])
    ensures IsPriced(t, t[..n], space, TrimStart(t[n..]))
  {
    space := TrimStartParts(t[n..]);
    assert t == t[..n] + t[n..];
  }

  lemma StrippedIsPriced(t: string) returns (currency: string, space: string)
    ensures IsPriced(t, currency, space, StripCurrency(t))
  {
    currency, space := "", "";
    if |t| >= 3 && Lower(t[..3]) == "ngn" {
      LowerIs(t[..3], "ngn");
      currency := t[..3];
      space := PrefixIsCurrency(t, 3);
    } else if t != "" && t[0] == '\U{20A6}' {
      currency := t[..1];
      space := PrefixIsCurrency(t, 1);
    }
  }

  /** The cell is an amount, with a currency before it or not, and white space around it or none. */
  ghost predicate SpellsAmount(cell: string, kobo: nat) {
    exists t, currency, space, amount ::
      Surrounds(cell, t) && IsPriced(t, currency, space, amount) && IsAmountOf(amount, kobo)
  }

  lemma AmountEnds(amount: string, kobo: nat)
    requires IsAmountOf(amount, kobo)
    ensures amount != "" && IsDigit(amount[0]) && IsDigit(amount[|amount| - 1])
  {
    var digits, grouped, cents :| IsAmount(amount, digits, grouped, cents) && KoboOf(digits, cents) == kobo;
    GroupedDigits(digits);
    var whole := if grouped then Grouped(digits) else digits;
    assert amount[0] == whole[0];
    if cents != "" {
      assert amount[|amount| - 1] == cents[|cents| - 1];
    } else if grouped {
      assert amount[|amount| - 1] == digits[|digits| - 1];
    }
  }

  lemma PricedIsTrimmed(t: string, currency: string, space: string, amount: string)
    requires IsPriced(t, currency, space, amount) && amount != ""
    requires IsDigit(amount[0]) && IsDigit(amount[|amount| - 1])
    ensures t != "" && IsTrimmed(t)
  {
    assert t[|t| - 1] == amount[|amount| - 1];
    if currency == "" {
      assert t[0] == amount[0];
    } else {
      assert t[0] == currency[0];
      if SameLetters(currency, "ngn") { assert IsLetterOf(currency[0], "ngn"[0]) && "ngn"[0] == 'n'; }
    }
  }

  /**
   An amount cell means an amount exactly when that is positive and safe, and the cell spells it: digits in groups
   or not, with one or two decimals or none, after a currency or not.
   */
  lemma AmountExactly(cell: string, kobo: nat)
    ensures ParseAmountKobo(cell) == Some(kobo) <==> SpellsAmount(cell, kobo) && 0 < kobo <= MAX_SAFE_INTEGER
  {
    var t := Trim(cell);
    AmountTextExactly(StripCurrency(t), kobo);
    if ParseAmountKobo(cell) == Some(kobo) {
      AmountEnds(StripCurrency(t), kobo);
      var currency, space := StrippedIsPriced(t);
      PricedIsTrimmed(t, currency, space, StripCurrency(t));
      TrimIs(cell, t);
    }
    if SpellsAmount(cell, kobo) && 0 < kobo <= MAX_SAFE_INTEGER { SpelledAmountIsRead(cell, kobo); }
  }

  lemma SpelledAmountIsRead(cell: string, kobo: nat)
    requires SpellsAmount(cell, kobo) && 0 < kobo <= MAX_SAFE_INTEGER
    ensures ParseAmountKobo(cell) == Some(kobo)
  {
    var t, currency, space, amount :|
      Surrounds(cell, t) && IsPriced(t, currency, space, amount) && IsAmountOf(amount, kobo);
    AmountEnds(amount, kobo);
    PricedIsTrimmed(t, currency, space, amount);
    TrimIs(cell, t);
    CurrencyIsStripped(t, currency, space, amount);
    AmountTextExactly(amount, kobo);
  }

  lemma CurrencyIsTrimmed(currency: string)
    requires IsCurrency(currency)
    ensures currency != "" && IsTrimmed(currency) && StripCurrency(currency) == ""
  {
    if SameLetters(currency, "ngn") {
      assert IsLetterOf(currency[0], "ngn"[0]) && IsLetterOf(currency[2], "ngn"[2]);
      LowerIs(currency, "ngn");
      assert currency[..3] == currency && currency[3..] == "";
    } else {
      assert currency[1..] == "";
    }
  }

  lemma NothingLeft(t: string, currency: string, space: string)
    requires IsPriced(t, currency, space, "") && IsTrimmed(t)
    ensures t == "" || (IsCurrency(currency) && t == currency)
  {
    assert t == currency + space;
  }

  /** An amount cell counts as filled unless it is blank or only a currency. */
  lemma FilledExactly(cell: string)
    ensures AmountPresent(cell) <==> !IsBlank(cell) && forall c | IsCurrency(c) :: !Surrounds(cell, c)
  {
    var t := Trim(cell);
    TrimCuts(cell);
    forall c | IsCurrency(c) && Surrounds(cell, c) ensures !AmountPresent(cell) {
      CurrencyIsTrimmed(c);
      TrimIs(cell, c);
    }
    if !AmountPresent(cell) && t != "" {
      var currency, space := StrippedIsPriced(t);
      NothingLeft(t, currency, space);
      CurrencyIsTrimmed(t);
      TrimIs(cell, t);
    }
  }
}
