/**
 What the numbers of the stability score mean: the days left, the pace they ask for, what a later due date and a larger
 income do to the score, and where the engine's inputs come from.
 */
module StabilityPace {
  import opened Wrappers
  import opened StabilityEngine

  // ----- quotients -----

  lemma QuotientUndone(a: real, b: real)
    requires b > 0.0
    ensures a / b * b == a
  {
  }

  lemma QuotientAgainst(q: real, k: real, b: real)
    requires b > 0.0
    ensures q >= k <==> q * b >= k * b
  {
    if q >= k { MultiplyLess(b, k, q); } else { MultiplyLess(b, q, k); }
  }

  lemma QuotientOfSame(b: real)
    requires b > 0.0
    ensures b / b == 1.0 && 0.0 / b == 0.0
  {
  }

  // ----- the days left -----

  lemma DayHasBegun(ms: int, k: int, x: real, rounded: real)
    requires k * DAY_MS < ms < TWO_53 && x * DAY_MS as real == ms as real && TWO_53 as real * (rounded - x) >= -x
    ensures rounded > k as real
  {
    assert (k * DAY_MS) as real <= ms as real - 1.0;
  }

  lemma DaysAbove(fl: Rounding, ms: int, k: nat)
    requires k * DAY_MS < ms < TWO_53
    ensures Ceil(fl(ms as real / DAY_MS as real)) > k
  {
    var x := ms as real / DAY_MS as real;
    assert StaysNear(fl, x);
    DayHasBegun(ms, k, x, fl(x));
  }

  lemma DaysWithin(fl: Rounding, ms: int, k: nat)
    requires ms <= k * DAY_MS && k <= TWO_53
    ensures Ceil(fl(ms as real / DAY_MS as real)) <= k
  {
    DivideMore(ms as real, (k * DAY_MS) as real, DAY_MS as real);
    assert (k * DAY_MS) as real / DAY_MS as real == k as real;
    WholeIsExact(fl, k);
    KeepsOrder(fl, ms as real / DAY_MS as real, k as real);
  }

  lemma LateIsZero(fl: Rounding, i: Inputs)
    requires i.dueDate <= i.today
    ensures DaysRemaining(fl, i) == 0
  {
    WholeIsExact(fl, 0);
    WholeGrows(fl, i.dueDate - i.today, 0);
    DaysWithin(fl, Whole(fl, i.dueDate - i.today), 0);
  }

  /** A day that has begun counts whole; nothing is left from the due instant on. */
  lemma DaysExactly(fl: Rounding, i: Inputs, n: nat)
    requires i.dueDate - i.today < TWO_53
    ensures DaysRemaining(fl, i) == n <==>
            if n == 0 then i.dueDate <= i.today
            else (n - 1) * DAY_MS < i.dueDate - i.today <= n * DAY_MS
  {
    var ms := i.dueDate - i.today;
    if ms <= 0 {
      LateIsZero(fl, i);
    } else {
      WholeIsExact(fl, ms);
      var k := (ms - 1) / DAY_MS;
      DaysAbove(fl, ms, k);
      DaysWithin(fl, ms, k + 1);
    }
  }

  // ----- the pace -----

  lemma QuotientAbove(q: real, a: int, b: int, k: int)
    requires b > 0 && q * b as real == a as real
    ensures q > k as real <==> a > k * b
  {
    if q > k as real { MultiplyLess(b as real, k as real, q); } else { MultiplyLess(b as real, q, k as real); }
  }

  lemma CeilingIs(q: real, a: int, b: int, p: int)
    requires b > 0 && q * b as real == a as real
    ensures Ceil(q) == p <==> (p - 1) * b < a <= p * b
  {
    QuotientAbove(q, a, b, p);
    QuotientAbove(q, a, b, p - 1);
  }

  lemma MonthsExactly(fl: Rounding, days: nat)
    requires days > 0 && forall x :: LeavesAlone(fl, x)
    ensures Months(fl, days) == days as real / 30.0
  {
    assert LeavesAlone(fl, days as real / 30.0) && LeavesAlone(fl, 1.0 / 30.0);
    DivideMore(1.0, days as real, 30.0);
  }

  lemma QuotientOfMonths(a: real, days: real, q: real)
    requires days > 0.0 && q == a / (days / 30.0)
    ensures q * days == 30.0 * a
  {
    var m := days / 30.0;
    assert q * m == a;
    assert q * (30.0 * m) == 30.0 * (q * m);
  }

  /** Without rounding the pace is the least whole amount a month, of thirty days, that covers what is owed in time. */
  lemma PaceExactly(fl: Rounding, days: nat, owed: nat, pace: int)
    requires forall x :: LeavesAlone(fl, x)
    ensures PaceFor(fl, days, owed) == pace <==>
            if days == 0 then pace == owed else (pace - 1) * days < 30 * owed <= pace * days
  {
    if days > 0 {
      MonthsExactly(fl, days);
      var q := owed as real / Months(fl, days);
      assert LeavesAlone(fl, q);
      QuotientOfMonths(owed as real, days as real, q);
      CeilingIs(q, 30 * owed, days, pace);
    }
  }

  const TWO_50 := 1_125_899_906_842_624

  lemma DistributesOver(n: real, a: real, b: real, c: real)
    ensures n * (a - b) * c == n * (a * c) - n * (b * c)
  {
  }

  /** A relative error of the divisor moves the quotient by at most twice as much. */
  lemma QuotientMoves(q: real, m: real, x: real, d: real)
    requires x >= 0.0 && d > 0.0 && m > 0.0 && q * m == x * d && -d <= TWO_53 as real * (m - d) <= d
    ensures -2.0 * x <= TWO_53 as real * (q - x) <= 2.0 * x
  {
    var e, w := TWO_53 as real * (q - x), TWO_53 as real * (d - m);
    ErrorsCarryOver(q, m, x, d);
    ErrorIsSmall(e, m, x, w, e * m);
  }

  lemma ErrorIsSmall(e: real, m: real, x: real, w: real, em: real)
    requires m > 0.0 && x >= 0.0 && -2.0 * m <= w <= 2.0 * m && em == e * m && em == x * w
    ensures -2.0 * x <= e <= 2.0 * x
  {
    MultiplyLess(x, w, 2.0 * m);
    MultiplyLess(x, -2.0 * m, w);
    assert x * (2.0 * m) == 2.0 * x * m && x * (-2.0 * m) == -2.0 * x * m;
    if e > 2.0 * x { MultiplyLess(m, 2.0 * x, e); }
    if e < -2.0 * x { MultiplyLess(m, e, -2.0 * x); }
  }

  lemma ErrorsCarryOver(q: real, m: real, x: real, d: real)
    requires q * m == x * d
    ensures TWO_53 as real * (q - x) * m == x * (TWO_53 as real * (d - m))
  {
    DistributesOver(TWO_53 as real, q, x, m);
    DistributesOver(TWO_53 as real, d, m, x);
  }

  lemma RoundedQuotientIsNear(q: real, x: real, r: real)
    requires 0.0 <= x <= TWO_50 as real && -2.0 * x <= TWO_53 as real * (q - x) <= 2.0 * x
    requires -q <= TWO_53 as real * (r - q) <= q
    ensures x - 1.0 < r < x + 1.0
  {
  }

  lemma CeilingNear(r: real, x: real, a: int, b: int, p: int)
    requires b > 0 && x * b as real == a as real && x - 1.0 < r < x + 1.0 && p == Ceil(r)
    ensures (p - 2) * b < a < (p + 1) * b
  {
    QuotientAbove(x, a, b, p - 2);
    QuotientAbove(-x, -a, b, -(p + 1));
  }

  lemma MonthsAreNear(fl: Rounding, days: nat)
    requires days > 0
    ensures var d := days as real / 30.0; -d <= TWO_53 as real * (Months(fl, days) - d) <= d
  {
    DivideMore(1.0, days as real, 30.0);
    KeepsOrder(fl, 1.0 / 30.0, days as real / 30.0);
    assert StaysNear(fl, days as real / 30.0);
  }

  lemma ExactPace(days: nat, owed: nat) returns (x: real)
    requires days > 0 && 30 * owed <= TWO_50 * days
    ensures 0.0 <= x <= TWO_50 as real && x * days as real == (30 * owed) as real
  {
    x := (30 * owed) as real / days as real;
    QuotientUndone((30 * owed) as real, days as real);
    QuotientAbove(x, 30 * owed, days, TWO_50);
    QuotientAgainst(x, 0.0, days as real);
  }

  lemma ThirtiethOf(x: real, days: real, owed: real)
    requires x * days == 30.0 * owed
    ensures x * (days / 30.0) == owed
  {
  }

  lemma PaceQuotient(fl: Rounding, days: nat, owed: nat, x: real)
    requires days > 0 && 0.0 <= x <= TWO_50 as real && x * days as real == (30 * owed) as real
    ensures x - 1.0 < fl(owed as real / Months(fl, days)) < x + 1.0
  {
    var m := Months(fl, days);
    var q := owed as real / m;
    QuotientUndone(owed as real, m);
    QuotientAgainst(q, 0.0, m);
    MonthsAreNear(fl, days);
    ThirtiethOf(x, days as real, owed as real);
    QuotientMoves(q, m, x, days as real / 30.0);
    assert StaysNear(fl, q);
    RoundedQuotientIsNear(q, x, fl(q));
  }

  /** For every rounding the pace is at most one kobo off that, as long as it is at most 2^50. */
  lemma PaceIsClose(fl: Rounding, days: nat, owed: nat, exact: int)
    requires 30 * owed <= TWO_50 * days || days == 0
    requires if days == 0 then exact == owed else (exact - 1) * days < 30 * owed <= exact * days
    ensures if days == 0 then PaceFor(fl, days, owed) == exact else exact - 1 <= PaceFor(fl, days, owed) <= exact + 1
  {
    if days > 0 {
      var x := ExactPace(days, owed);
      PaceQuotient(fl, days, owed, x);
      var pace := PaceFor(fl, days, owed);
      CeilingNear(fl(owed as real / Months(fl, days)), x, 30 * owed, days, pace);
      LessTimes(exact - 1, pace + 1, days);
      LessTimes(pace - 2, exact, days);
    }
  }

  lemma LessTimes(a: int, b: int, n: nat)
    requires a * n < b * n
    ensures a < b
  {
  }

  lemma MonthsGrow(fl: Rounding, d: nat, e: nat)
    requires d <= e
    ensures Months(fl, d) <= Months(fl, e)
  {
    DivideMore(d as real, e as real, 30.0);
    KeepsOrder(fl, d as real / 30.0, e as real / 30.0);
  }

  lemma PaceSlows(fl: Rounding, d: nat, e: nat, owed: nat)
    requires 0 < d <= e
    ensures PaceFor(fl, e, owed) <= PaceFor(fl, d, owed)
  {
    MonthsGrow(fl, d, e);
    DivideByLess(owed as real, Months(fl, e), Months(fl, d));
    KeepsOrder(fl, owed as real / Months(fl, e), owed as real / Months(fl, d));
  }

  lemma DivideByOne(a: real, m: real)
    requires a >= 0.0 && m > 0.0
    ensures m >= 1.0 ==> a / m <= a
    ensures m <= 1.0 ==> a <= a / m
  {
    if m >= 1.0 { DivideByLess(a, m, 1.0); } else { DivideByLess(a, 1.0, m); }
  }

  lemma MonthsAround(fl: Rounding, days: nat)
    ensures days >= 30 ==> Months(fl, days) >= 1.0
    ensures days <= 29 ==> Months(fl, days) <= 1_037_950_431.0 / GRID
  {
    WholeIsExact(fl, 1);
    if days >= 30 {
      MonthsGrow(fl, 30, days);
    } else {
      GridIsExact(fl, 1_037_950_431);
      KeepsOrder(fl, days as real / 30.0, 1_037_950_431.0 / GRID);
      KeepsOrder(fl, 1.0 / 30.0, 1_037_950_431.0 / GRID);
    }
  }

  /** With a month or more the pace is at most what is owed, with less it is at least that. */
  lemma PaceAround(fl: Rounding, days: nat, owed: nat)
    requires Whole(fl, owed) == owed
    ensures days >= 30 ==> PaceFor(fl, days, owed) <= owed
    ensures days <= 29 ==> PaceFor(fl, days, owed) >= owed
  {
    assert StaysWhole(fl, owed);
    if days > 0 {
      var m := Months(fl, days);
      MonthsAround(fl, days);
      DivideByOne(owed as real, m);
      if days >= 30 {
        KeepsOrder(fl, owed as real / m, owed as real);
      } else {
        KeepsOrder(fl, owed as real, owed as real / m);
      }
    }
  }

  // ----- a later due date -----

  /** One goal seen at two pairs of dates. */
  predicate OnlyDatesDiffer(i: Inputs, j: Inputs) {
    j == i.(dueDate := j.dueDate, today := j.today)
  }

  lemma NoPaceMeansNothingOwed(fl: Rounding, i: Inputs, j: Inputs)
    requires OnlyDatesDiffer(i, j) && PaceRequired(fl, j) <= 0
    ensures PaceRequired(fl, i) <= 0
  {
    if Obligation(fl, j) > 0 {
      PaceShrinks(fl, DaysRemaining(fl, j), Obligation(fl, j), Obligation(fl, j));
    } else {
      NothingToPace(fl, DaysRemaining(fl, i));
    }
  }

  lemma SlowerPaceIsSupported(fl: Rounding, i: Inputs, j: Inputs)
    requires OnlyDatesDiffer(i, j) && PaceRequired(fl, j) <= PaceRequired(fl, i)
    ensures IncomeSupportRatio(fl, i) <= IncomeSupportRatio(fl, j)
  {
    if PaceRequired(fl, j) <= 0 {
      NoPaceMeansNothingOwed(fl, i, j);
    } else if i.monthlyIncome.Some? {
      ShareGrows(fl, i.monthlyIncome.value, i.monthlyIncome.value, PaceRequired(fl, i), PaceRequired(fl, j));
    }
  }

  lemma SlowerPaceHelps(fl: Rounding, i: Inputs, j: Inputs)
    requires OnlyDatesDiffer(i, j) && PaceRequired(fl, j) <= PaceRequired(fl, i)
    ensures Score(fl, i) <= Score(fl, j)
  {
    SlowerPaceIsSupported(fl, i, j);
    WeightedGrows(fl, ReadinessRatio(fl, i), CoverageRatio(fl, i), IncomeSupportRatio(fl, i), BufferRatio(fl, i),
                  ReadinessRatio(fl, j), CoverageRatio(fl, j), IncomeSupportRatio(fl, j), BufferRatio(fl, j));
  }

  lemma MoreTimeSlows(fl: Rounding, i: Inputs, j: Inputs)
    requires OnlyDatesDiffer(i, j) && DaysRemaining(fl, i) <= DaysRemaining(fl, j)
    requires DaysRemaining(fl, i) > 0 || DaysRemaining(fl, j) == 0 || DaysRemaining(fl, j) >= 30
    ensures PaceRequired(fl, j) <= PaceRequired(fl, i)
  {
    var owed := Obligation(fl, i);
    ObligationIsRounded(fl, i);
    if DaysRemaining(fl, i) > 0 {
      PaceSlows(fl, DaysRemaining(fl, i), DaysRemaining(fl, j), owed);
    } else {
      PaceAround(fl, DaysRemaining(fl, j), owed);
    }
  }

  lemma ObligationIsRounded(fl: Rounding, i: Inputs)
    ensures Whole(fl, Obligation(fl, i)) == Obligation(fl, i)
  {
    WholeIsRounded(fl, Total(i) - MaxInt(0, i.goalSaved));
    WholeIsExact(fl, 0);
  }

  /** From an overdue goal to one due within 29 days the score never rises. */
  lemma DueSoonNeverHelps(fl: Rounding, i: Inputs, j: Inputs)
    requires OnlyDatesDiffer(i, j) && DaysRemaining(fl, i) == 0 && DaysRemaining(fl, j) <= 29
    ensures Score(fl, j) <= Score(fl, i)
  {
    ObligationIsRounded(fl, i);
    PaceAround(fl, DaysRemaining(fl, j), Obligation(fl, j));
    SlowerPaceHelps(fl, j, i);
  }

  /** Going from `d` days left to `e` never costs a point. */
  ghost predicate NeverCosts(fl: Rounding, d: nat, e: nat) {
    forall i, j | OnlyDatesDiffer(i, j) && DaysRemaining(fl, i) == d && DaysRemaining(fl, j) == e ::
      Score(fl, i) <= Score(fl, j)
  }

  /** A goal of which nothing is saved, due after `days` days, with an income that would pay for it in a month. */
  function Unsaved(days: nat): Inputs {
    Inputs(100, 0, days * DAY_MS, 0, 0, Some(100))
  }

  lemma UnsavedDays(fl: Rounding, days: nat)
    requires days <= 29
    ensures DaysRemaining(fl, Unsaved(days)) == days
    ensures Obligation(fl, Unsaved(days)) == 100
  {
    DaysExactly(fl, Unsaved(days), days);
    WholeIsExact(fl, 100);
  }

  lemma UnsavedScores(fl: Rounding, days: nat)
    requires days <= 29
    ensures Points(fl, Unsaved(days)) == fl(IncomeSupportRatio(fl, Unsaved(days)) * 20.0)
  {
    var i := Unsaved(days);
    UnsavedDays(fl, days);
    WholeIsExact(fl, 0);
    WholeIsExact(fl, -100);
    var n := fl(IncomeSupportRatio(fl, i) * 20.0);
    assert StaysRounded(fl, IncomeSupportRatio(fl, i) * 20.0);
    assert 0.0 / 100.0 == 0.0;
  }

  lemma RushedPace(fl: Rounding, days: nat)
    requires 0 < days <= 29
    ensures PaceFor(fl, days, 100) >= 104
  {
    var m := Months(fl, days);
    MonthsAround(fl, days);
    DivideByLess(100.0, 1_037_950_431.0 / GRID, m);
    assert 100.0 / (1_037_950_431.0 / GRID) >= 103.4;
    GridIsExact(fl, 110_917_320_179);
    KeepsOrder(fl, 110_917_320_179.0 / GRID, 100.0 / m);
  }

  lemma OverdueScores(fl: Rounding)
    ensures Score(fl, Unsaved(0)) == 20
  {
    UnsavedDays(fl, 0);
    UnsavedScores(fl, 0);
    WholeIsExact(fl, 1);
    WholeIsExact(fl, 20);
    assert 100.0 / 100.0 == 1.0;
  }

  lemma RushedScores(fl: Rounding, days: nat)
    requires 0 < days <= 29
    ensures Score(fl, Unsaved(days)) <= 19
  {
    var i := Unsaved(days);
    UnsavedDays(fl, days);
    UnsavedScores(fl, days);
    RushedPace(fl, days);
    ShareGrows(fl, 100, 100, PaceRequired(fl, i), 104);
    ShareBelow(fl, 100, 104, 1_032_444_062);
    GridIsExact(fl, 20_648_881_240);
    KeepsOrder(fl, IncomeSupportRatio(fl, i) * 20.0, 20_648_881_240.0 / GRID);
  }

  /**
   A later due date, or an earlier look, never costs a point, except exactly when an overdue goal becomes one due within
   29 days: overdue, it asks for what is owed in one month; with a few days left, for as much in those days.
   */
  lemma LaterDueDateHelpsExactly(fl: Rounding, d: nat, e: nat)
    requires d <= e
    ensures NeverCosts(fl, d, e) <==> d > 0 || e == 0 || e >= 30
  {
    if d > 0 || e == 0 || e >= 30 {
      forall i, j | OnlyDatesDiffer(i, j) && DaysRemaining(fl, i) == d && DaysRemaining(fl, j) == e
        ensures Score(fl, i) <= Score(fl, j)
      {
        MoreTimeSlows(fl, i, j);
        SlowerPaceHelps(fl, i, j);
      }
    } else {
      OverdueScores(fl);
      RushedScores(fl, e);
      UnsavedDays(fl, 0);
      UnsavedDays(fl, e);
      assert OnlyDatesDiffer(Unsaved(0), Unsaved(e));
    }
  }

  // ----- a larger income -----

  /** An income of zero is no income. */
  function IncomeOf(i: Inputs): int {
    match i.monthlyIncome
    case Some(income) => income
    case None => 0
  }

  predicate OnlyIncomesDiffer(i: Inputs, j: Inputs) {
    j == i.(monthlyIncome := j.monthlyIncome)
  }

  lemma SupportGrows(fl: Rounding, i: Inputs, j: Inputs)
    requires OnlyIncomesDiffer(i, j) && IncomeOf(i) <= IncomeOf(j)
    ensures IncomeSupportRatio(fl, i) <= IncomeSupportRatio(fl, j)
  {
    var pace := PaceRequired(fl, i);
    WholeIsExact(fl, 0);
    if pace > 0 {
      QuotientOfSame(pace as real);
      ShareGrows(fl, IncomeOf(i), IncomeOf(j), pace, pace);
    }
  }

  lemma FullSupport(fl: Rounding, i: Inputs)
    requires 0 < PaceRequired(fl, i) <= IncomeOf(i)
    ensures IncomeSupportRatio(fl, i) == 1.0
  {
    var pace := PaceRequired(fl, i);
    WholeIsExact(fl, 1);
    QuotientOfSame(pace as real);
    ShareGrows(fl, pace, IncomeOf(i), pace, pace);
  }

  lemma SupportStays(fl: Rounding, i: Inputs, j: Inputs)
    requires OnlyIncomesDiffer(i, j) && PaceRequired(fl, i) <= IncomeOf(i) <= IncomeOf(j)
    ensures IncomeSupportRatio(fl, i) == IncomeSupportRatio(fl, j)
  {
    if PaceRequired(fl, i) > 0 {
      FullSupport(fl, i);
      FullSupport(fl, j);
    }
  }

  /** A larger income never lowers the score, and every income of at least the pace gives the same score. */
  lemma IncomeHelpsUpToPace(fl: Rounding, i: Inputs, j: Inputs)
    requires OnlyIncomesDiffer(i, j) && IncomeOf(i) <= IncomeOf(j)
    ensures Score(fl, i) <= Score(fl, j)
    ensures PaceRequired(fl, i) <= IncomeOf(i) ==> Score(fl, i) == Score(fl, j)
  {
    SupportGrows(fl, i, j);
    if PaceRequired(fl, i) <= IncomeOf(i) { SupportStays(fl, i, j); }
    WeightedGrows(fl, ReadinessRatio(fl, i), CoverageRatio(fl, i), IncomeSupportRatio(fl, i), BufferRatio(fl, i),
                  ReadinessRatio(fl, j), CoverageRatio(fl, j), IncomeSupportRatio(fl, j), BufferRatio(fl, j));
  }

  // ----- a goal that is only covered -----

  function Between01(x: real): real {
    if x < 0.0 then 0.0 else if x > 1.0 then 1.0 else x
  }

  lemma ShareExactly(fl: Rounding, a: int, b: int)
    requires b > 0 && forall x :: LeavesAlone(fl, x)
    ensures Share(fl, a, b) == Between01(a as real / b as real)
  {
    assert LeavesAlone(fl, a as real / b as real);
  }

  lemma WholeLeftAlone(fl: Rounding, n: int)
    requires forall x :: LeavesAlone(fl, x)
    ensures Whole(fl, n) == n
  {
    assert LeavesAlone(fl, n as real);
  }

  lemma WeightedLeftAlone(fl: Rounding, r: real, c: real, n: real, b: real)
    requires forall x :: LeavesAlone(fl, x)
    ensures Weighted(fl, r, c, n, b) == r * 40.0 + c * 30.0 + n * 20.0 + b * 10.0
  {
    assert LeavesAlone(fl, r * 40.0) && LeavesAlone(fl, c * 30.0) && LeavesAlone(fl, n * 20.0);
    assert LeavesAlone(fl, b * 10.0) && LeavesAlone(fl, r * 40.0 + c * 30.0);
    assert LeavesAlone(fl, r * 40.0 + c * 30.0 + n * 20.0);
    assert LeavesAlone(fl, r * 40.0 + c * 30.0 + n * 20.0 + b * 10.0);
  }

  lemma LessOne(a: real, b: real)
    requires b > 0.0
    ensures (a - b) / b == a / b - 1.0
  {
    var q, r := a / b - 1.0, (a - b) / b;
    QuotientUndone(a, b);
    QuotientUndone(a - b, b);
    if q < r { MultiplyLess(b, q, r); } else if r < q { MultiplyLess(b, r, q); }
  }

  lemma SpareIs(fl: Rounding, i: Inputs, owed: nat)
    requires owed > 0 && Obligation(fl, i) == owed && forall x :: LeavesAlone(fl, x)
    ensures CoverageRatio(fl, i) == Between01(i.balance as real / owed as real)
    ensures BufferRatio(fl, i) == Between01(i.balance as real / owed as real - 1.0)
  {
    var spare := i.balance - owed;
    WholeLeftAlone(fl, spare);
    ShareExactly(fl, i.balance, owed);
    ShareExactly(fl, MaxInt(0, spare), owed);
    LessOne(i.balance as real, owed as real);
    DivideMore(spare as real, MaxInt(0, spare) as real, owed as real);
    QuotientOfSame(owed as real);
  }

  lemma CoveredOnlyPoints(fl: Rounding, i: Inputs)
    requires i.goalTotal > 0 && i.goalSaved <= 0 && IncomeOf(i) == 0 && forall x :: LeavesAlone(fl, x)
    ensures var q := i.balance as real / i.goalTotal as real;
            Points(fl, i) == Between01(q) * 30.0 + Between01(q - 1.0) * 10.0
  {
    WholeLeftAlone(fl, i.goalTotal);
    SpareIs(fl, i, i.goalTotal);
    ShareExactly(fl, 0, i.goalTotal);
    QuotientOfSame(i.goalTotal as real);
    WeightedLeftAlone(fl, 0.0, CoverageRatio(fl, i), 0.0, BufferRatio(fl, i));
  }

  lemma CoveredShare(i: Inputs)
    requires i.goalTotal > 0
    ensures i.balance as real / i.goalTotal as real >= 1.95 <==> 20 * i.balance >= 39 * i.goalTotal
  {
    QuotientUndone(i.balance as real, i.goalTotal as real);
    QuotientAgainst(i.balance as real / i.goalTotal as real, 1.95, i.goalTotal as real);
  }

  lemma StatusCovered(q: real, points: real)
    requires points == Between01(q) * 30.0 + Between01(q - 1.0) * 10.0
    ensures StatusOf(Round(points)) == if q >= 1.95 then Warning else Critical
  {
  }

  /**
   Without rounding, a goal with nothing saved and no income is never stable, and escapes being critical exactly when
   the balance is at least 1.95 times the goal.
   */
  lemma CoveredOnly(fl: Rounding, i: Inputs)
    requires i.goalTotal > 0 && i.goalSaved <= 0 && IncomeOf(i) == 0 && forall x :: LeavesAlone(fl, x)
    ensures StabilityStatus(fl, i) == if 20 * i.balance >= 39 * i.goalTotal then Warning else Critical
  {
    CoveredOnlyPoints(fl, i);
    CoveredShare(i);
    StatusCovered(i.balance as real / i.goalTotal as real, Points(fl, i));
  }

  lemma ShareIs(a: nat, b: int)
    requires 0 < b && a <= b
    ensures Between01(a as real / b as real) == a as real / b as real
  {
    DivideMore(0.0, a as real, b as real);
    DivideMore(a as real, b as real, b as real);
    QuotientOfSame(b as real);
  }

  lemma DoubleCovers(fl: Rounding, i: Inputs, owed: nat)
    requires owed > 0 && Obligation(fl, i) == owed && 2 * owed <= i.balance && forall x :: LeavesAlone(fl, x)
    ensures CoverageRatio(fl, i) == 1.0 && BufferRatio(fl, i) == 1.0
  {
    SpareIs(fl, i, owed);
    QuotientUndone(i.balance as real, owed as real);
    QuotientAgainst(i.balance as real / owed as real, 2.0, owed as real);
  }

  lemma SavedShare(i: Inputs)
    requires 0 <= i.goalSaved < i.goalTotal
    ensures var q := i.goalSaved as real / i.goalTotal as real;
            q >= 0.0 && (q >= 0.2375 <==> 80 * i.goalSaved >= 19 * i.goalTotal)
  {
    var q := i.goalSaved as real / i.goalTotal as real;
    QuotientUndone(i.goalSaved as real, i.goalTotal as real);
    QuotientAgainst(q, 0.0, i.goalTotal as real);
    QuotientAgainst(q, 0.2375, i.goalTotal as real);
  }

  lemma StatusAt(q: real, points: real)
    requires q >= 0.0 && points == q * 40.0 + 60.0
    ensures StatusOf(Round(points)) == if q >= 0.2375 then Stable else Warning
  {
  }

  predicate IsBacked(fl: Rounding, i: Inputs) {
    && 0 <= i.goalSaved < i.goalTotal && 2 * (i.goalTotal - i.goalSaved) <= i.balance
    && PaceRequired(fl, i) <= IncomeOf(i)
  }

  lemma BackedPoints(fl: Rounding, i: Inputs)
    requires IsBacked(fl, i) && forall x :: LeavesAlone(fl, x)
    ensures Points(fl, i) == Weighted(fl, i.goalSaved as real / i.goalTotal as real, 1.0, 1.0, 1.0)
  {
    var owed := i.goalTotal - i.goalSaved;
    WholeLeftAlone(fl, owed);
    DoubleCovers(fl, i, owed);
    PaceShrinks(fl, DaysRemaining(fl, i), owed, owed);
    FullSupport(fl, i);
    ShareExactly(fl, i.goalSaved, i.goalTotal);
    ShareIs(i.goalSaved, i.goalTotal);
  }

  /**
   Without rounding, a goal whose rest the balance covers twice and whose pace the income covers is stable exactly when
   19/80 of it are saved, and never critical.
   */
  lemma BackedIsStableExactly(fl: Rounding, i: Inputs)
    requires IsBacked(fl, i) && forall x :: LeavesAlone(fl, x)
    ensures StabilityStatus(fl, i) == if 80 * i.goalSaved >= 19 * i.goalTotal then Stable else Warning
  {
    var q := i.goalSaved as real / i.goalTotal as real;
    BackedPoints(fl, i);
    ExactlyEarns(fl, q);
    SavedShare(i);
    StatusAt(q, Points(fl, i));
  }

  /** A goal of nothing scores 40: nothing is owed, and nothing of it can be saved. */
  lemma NoGoalScores(fl: Rounding, i: Inputs)
    requires i.goalTotal <= 0
    ensures Score(fl, i) == 40
  {
    NothingOwed(fl, i);
    NothingToPace(fl, DaysRemaining(fl, i));
    WeightedExactly(fl, 0, 1, 0, 1);
  }

  // ----- where the inputs come from -----

  /** Does this transaction go that way, and to that goal if one is asked for? */
  predicate Matches(tx: Tx, direction: Direction, goal: Option<nat>) {
    tx.direction == direction && (goal.Some? ==> tx.goal == goal)
  }

  /** The sum of the first `n` amounts that match. */
  function Moved(txs: seq<Tx>, n: nat, direction: Direction, goal: Option<nat>): nat
    requires n <= |txs|
  {
    if n == 0 then 0
    else Moved(txs, n - 1, direction, goal) + if Matches(txs[n - 1], direction, goal) then txs[n - 1].amount else 0
  }

  /** All that came in, and all that went out, is at most 2^53 kobo. */
  predicate IsSafe(txs: seq<Tx>, n: nat)
    requires n <= |txs|
  {
    Moved(txs, n, In, None) <= TWO_53 && Moved(txs, n, Out, None) <= TWO_53
  }

  lemma {:induction false} PartIsLess(txs: seq<Tx>, n: nat, direction: Direction, goal: nat)
    requires n <= |txs|
    ensures Moved(txs, n, direction, Some(goal)) <= Moved(txs, n, direction, None)
  {
    if n == 0 {
    } else {
      PartIsLess(txs, n - 1, direction, goal);
    }
  }

  lemma {:induction false} BalanceIsExact(fl: Rounding, txs: seq<Tx>, n: nat)
    requires n <= |txs| && IsSafe(txs, n)
    ensures BalanceOf(fl, txs, n) == Moved(txs, n, In, None) - Moved(txs, n, Out, None)
  {
    if n == 0 {
    } else {
      BalanceIsExact(fl, txs, n - 1);
      WholeIsExact(fl, Moved(txs, n, In, None) - Moved(txs, n, Out, None));
    }
  }

  lemma {:induction false} SavingsAreExact(fl: Rounding, txs: seq<Tx>, n: nat, goal: nat)
    requires n <= |txs| && IsSafe(txs, n)
    ensures SavedFor(fl, txs, n, goal) == Moved(txs, n, In, Some(goal)) - Moved(txs, n, Out, Some(goal))
  {
    if n == 0 {
    } else {
      SavingsAreExact(fl, txs, n - 1, goal);
      PartIsLess(txs, n, In, goal);
      PartIsLess(txs, n, Out, goal);
      WholeIsExact(fl, Moved(txs, n, In, Some(goal)) - Moved(txs, n, Out, Some(goal)));
    }
  }

  /**
   The balance is all that came in less all that went out, the savings the same over the goal's own transactions, and a
   goal without an income, or with one of zero, has none.
   */
  lemma DashboardReads(fl: Rounding, goal: Goal, txs: seq<Tx>, today: int)
    requires IsSafe(txs, |txs|)
    ensures var i := InputsFor(fl, goal, txs, today);
            var n := |txs|;
            && i.balance == Moved(txs, n, In, None) - Moved(txs, n, Out, None)
            && i.goalSaved == Moved(txs, n, In, Some(goal.id)) - Moved(txs, n, Out, Some(goal.id))
            && i.goalTotal == goal.amountTotal && i.dueDate == goal.dueDate && i.today == today
            && (if goal.monthlyIncome == Some(0) then i.monthlyIncome.None? else i.monthlyIncome == goal.monthlyIncome)
  {
    BalanceIsExact(fl, txs, |txs|);
    SavingsAreExact(fl, txs, |txs|, goal.id);
  }
}
