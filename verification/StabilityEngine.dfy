/**
 The readiness score of a goal, for any rounding of its arithmetic: amounts are whole kobo, instants whole
 milliseconds, and the result of every operation is rounded by `fl`.
 */
module StabilityEngine {
  import opened Wrappers

  datatype Status = Stable | Warning | Critical

  function Severity(s: Status): nat {
    match s
    case Stable => 0
    case Warning => 1
    case Critical => 2
  }

  datatype Inputs = Inputs(goalTotal: int, goalSaved: int, dueDate: int, today: int, balance: int,
                           monthlyIncome: Option<int>)

  const DAY_MS := 86_400_000

  function MaxInt(a: int, b: int): int {
    if a < b then b else a
  }

  function MaxReal(a: real, b: real): real {
    if a < b then b else a
  }

  function MinReal(a: real, b: real): real {
    if a < b then a else b
  }

  function Clamp(value: real, lo: real, hi: real): real {
    MinReal(hi, MaxReal(lo, value))
  }

  function Ceil(x: real): int {
    -(-x).Floor
  }

  /** `Math.round`: halves go up. */
  function Round(x: real): int {
    (x + 0.5).Floor
  }

  // ----- rounding -----

  const TWO_53 := 9_007_199_254_740_992
  const GRID := 1_073_741_824.0

  predicate Ordered(fl: real -> real, x: real, y: real) {
    x <= y ==> fl(x) <= fl(y)
  }

  predicate ExactAt(fl: real -> real, n: int) {
    -TWO_53 <= n <= TWO_53 ==>
      fl(n as real) == n as real && fl(n as real / GRID) == n as real / GRID
  }

  predicate StaysWhole(fl: real -> real, n: int) {
    fl(n as real) == fl(n as real).Floor as real
  }

  predicate StaysRounded(fl: real -> real, x: real) {
    fl(fl(x)) == fl(x)
  }

  predicate StaysPositive(fl: real -> real, x: real) {
    x > 0.0 ==> fl(x) > 0.0
  }

  /** The relative error is at most 2^-53. */
  predicate StaysNear(fl: real -> real, x: real) {
    x >= 0.0 ==> -x <= TWO_53 as real * (fl(x) - x) <= x
  }

  /**
   What is used of the arithmetic: rounding keeps order, is exact for whole numbers and multiples of 2^-30 of at most 53
   bits, keeps whole numbers whole, does nothing to a number already rounded, does not lose a positive number, and moves
   none by more than its 2^53th part. Rounding to doubles (section 4.3 of IEEE 754-2019) is like this within their
   exponent range, and so is not rounding at all.
   */
  ghost predicate IsRounding(fl: real -> real) {
    && (forall x, y :: Ordered(fl, x, y))
    && (forall n :: ExactAt(fl, n))
    && (forall n :: StaysWhole(fl, n))
    && (forall x :: StaysRounded(fl, x))
    && (forall x :: StaysPositive(fl, x))
    && (forall x :: StaysNear(fl, x))
  }

  type Rounding = fl: real -> real | IsRounding(fl) witness (x: real) => x

  lemma KeepsOrder(fl: Rounding, x: real, y: real)
    requires x <= y
    ensures fl(x) <= fl(y)
  {
    assert Ordered(fl, x, y);
  }

  /** The rounding of a whole number. */
  function Whole(fl: Rounding, n: int): int {
    fl(n as real).Floor
  }

  lemma WholeGrows(fl: Rounding, m: int, n: int)
    requires m <= n
    ensures Whole(fl, m) <= Whole(fl, n)
  {
    KeepsOrder(fl, m as real, n as real);
  }

  lemma WholeIsRounded(fl: Rounding, n: int)
    ensures Whole(fl, Whole(fl, n)) == Whole(fl, n)
  {
    assert StaysWhole(fl, n) && StaysRounded(fl, n as real);
  }

  lemma GridIsExact(fl: Rounding, n: int)
    requires -TWO_53 <= n <= TWO_53
    ensures fl(n as real / GRID) == n as real / GRID
  {
    assert ExactAt(fl, n);
  }

  /** Whole numbers of at most 53 bits are not changed. */
  lemma WholeIsExact(fl: Rounding, n: int)
    requires -TWO_53 <= n <= TWO_53
    ensures fl(n as real) == n as real && Whole(fl, n) == n
  {
    assert ExactAt(fl, n);
  }

  // ----- the engine -----

  function DaysRemaining(fl: Rounding, i: Inputs): nat {
    MaxInt(0, Ceil(fl(Whole(fl, i.dueDate - i.today) as real / DAY_MS as real)))
  }

  function Total(i: Inputs): nat {
    MaxInt(0, i.goalTotal)
  }

  function Obligation(fl: Rounding, i: Inputs): nat {
    MaxInt(0, Whole(fl, Total(i) - MaxInt(0, i.goalSaved)))
  }

  /** A share: a rounded quotient, limited to the range from 0 to 1. */
  function Share(fl: Rounding, a: int, b: int): real
    requires b != 0
  {
    Clamp(fl(a as real / b as real), 0.0, 1.0)
  }

  function ReadinessRatio(fl: Rounding, i: Inputs): real {
    if Total(i) > 0 then Share(fl, MaxInt(0, i.goalSaved), Total(i)) else 0.0
  }

  function Months(fl: Rounding, days: nat): (months: real)
    ensures months > 0.0
  {
    assert StaysPositive(fl, 1.0 / 30.0);
    MaxReal(fl(days as real / 30.0), fl(1.0 / 30.0))
  }

  function PaceFor(fl: Rounding, days: nat, obligation: nat): int {
    if days > 0 then Ceil(fl(obligation as real / Months(fl, days))) else obligation
  }

  function PaceRequired(fl: Rounding, i: Inputs): int {
    PaceFor(fl, DaysRemaining(fl, i), Obligation(fl, i))
  }

  function SafeToSpend(fl: Rounding, i: Inputs): nat {
    MaxInt(0, Whole(fl, i.balance - Obligation(fl, i)))
  }

  function CoverageRatio(fl: Rounding, i: Inputs): real {
    if Obligation(fl, i) == 0 then 1.0 else Share(fl, i.balance, MaxInt(Obligation(fl, i), 1))
  }

  /** An absent income and an income of zero both count as no support. */
  function IncomeSupportRatio(fl: Rounding, i: Inputs): real {
    if i.monthlyIncome.Some? && i.monthlyIncome.value != 0 && PaceRequired(fl, i) > 0
    then Share(fl, i.monthlyIncome.value, PaceRequired(fl, i))
    else 0.0
  }

  function BufferRatio(fl: Rounding, i: Inputs): real {
    if Obligation(fl, i) > 0 then Share(fl, SafeToSpend(fl, i), Obligation(fl, i)) else 1.0
  }

  function Weighted(fl: Rounding, readiness: real, coverage: real, income: real, buffer: real): real {
    fl(fl(fl(fl(readiness * 40.0) + fl(coverage * 30.0)) + fl(income * 20.0)) + fl(buffer * 10.0))
  }

  function Points(fl: Rounding, i: Inputs): real {
    Weighted(fl, ReadinessRatio(fl, i), CoverageRatio(fl, i), IncomeSupportRatio(fl, i), BufferRatio(fl, i))
  }

  function Score(fl: Rounding, i: Inputs): int {
    Round(Points(fl, i))
  }

  function StatusOf(score: int): Status {
    if score >= 70 then Stable else if score >= 40 then Warning else Critical
  }

  function StabilityStatus(fl: Rounding, i: Inputs): Status {
    StatusOf(Score(fl, i))
  }

  // ----- arithmetic -----

  lemma DivideMore(a: real, b: real, c: real)
    requires a <= b && c > 0.0
    ensures a / c <= b / c
  {
    assert b / c - a / c == (b - a) / c;
  }

  lemma DivideByLess(a: real, c: real, d: real)
    requires a >= 0.0 && 0.0 < d <= c
    ensures a / c <= a / d
  {
    var x, y := a / c, a / d;
    assert x * c == a && y * d == a;
    DivideMore(0.0, a, d);
    MultiplyLess(y, d, c);
    if x > y { MultiplyLess(c, y, x); }
  }

  lemma MultiplyLess(k: real, a: real, b: real)
    requires k >= 0.0 && a <= b
    ensures k * a <= k * b && a * k <= b * k
    ensures k > 0.0 && a < b ==> k * a < k * b
  {
  }

  lemma QuotientGrows(a: real, b: real, c: real, d: real)
    requires a <= b && 0.0 < d <= c
    ensures a >= 0.0 ==> a / c <= b / d
    ensures a <= 0.0 ==> a / c <= 0.0
  {
    if a >= 0.0 {
      DivideByLess(a, c, d);
      DivideMore(a, b, d);
    } else {
      DivideMore(a, 0.0, c);
    }
  }

  lemma ShareGrows(fl: Rounding, a: int, b: int, c: int, d: int)
    requires a <= b && 0 < d <= c
    ensures 0.0 <= Share(fl, a, c) <= Share(fl, b, d) <= 1.0
  {
    QuotientGrows(a as real, b as real, c as real, d as real);
    WholeIsExact(fl, 0);
    if a >= 0 {
      KeepsOrder(fl, a as real / c as real, b as real / d as real);
    } else {
      KeepsOrder(fl, a as real / c as real, 0.0);
    }
  }

  lemma WeightedGrows(fl: Rounding, r: real, c: real, n: real, b: real, r': real, c': real, n': real, b': real)
    requires r <= r' && c <= c' && n <= n' && b <= b'
    ensures Weighted(fl, r, c, n, b) <= Weighted(fl, r', c', n', b')
  {
    KeepsOrder(fl, r * 40.0, r' * 40.0);
    KeepsOrder(fl, c * 30.0, c' * 30.0);
    KeepsOrder(fl, n * 20.0, n' * 20.0);
    KeepsOrder(fl, b * 10.0, b' * 10.0);
    var x, x' := fl(r * 40.0) + fl(c * 30.0), fl(r' * 40.0) + fl(c' * 30.0);
    KeepsOrder(fl, x, x');
    var y, y' := fl(x) + fl(n * 20.0), fl(x') + fl(n' * 20.0);
    KeepsOrder(fl, y, y');
    KeepsOrder(fl, fl(y) + fl(b * 10.0), fl(y') + fl(b' * 10.0));
  }

  lemma WeightedExactly(fl: Rounding, r: int, c: int, n: int, b: int)
    requires 0 <= r <= 1 && 0 <= c <= 1 && 0 <= n <= 1 && 0 <= b <= 1
    ensures Weighted(fl, r as real, c as real, n as real, b as real) == (40 * r + 30 * c + 20 * n + 10 * b) as real
  {
    WholeIsExact(fl, 40 * r);
    WholeIsExact(fl, 30 * c);
    WholeIsExact(fl, 20 * n);
    WholeIsExact(fl, 10 * b);
    WholeIsExact(fl, 40 * r + 30 * c);
    WholeIsExact(fl, 40 * r + 30 * c + 20 * n);
    WholeIsExact(fl, 40 * r + 30 * c + 20 * n + 10 * b);
  }

  // ----- the score -----

  /** The score is a percentage. */
  lemma ScoreInRange(fl: Rounding, i: Inputs)
    ensures 0 <= Score(fl, i) <= 100
  {
    WeightedExactly(fl, 0, 0, 0, 0);
    WeightedExactly(fl, 1, 1, 1, 1);
    var r, c, n, b := ReadinessRatio(fl, i), CoverageRatio(fl, i), IncomeSupportRatio(fl, i), BufferRatio(fl, i);
    WeightedGrows(fl, 0.0, 0.0, 0.0, 0.0, r, c, n, b);
    WeightedGrows(fl, r, c, n, b, 1.0, 1.0, 1.0, 1.0);
  }

  lemma PaceShrinks(fl: Rounding, days: nat, more: nat, less: nat)
    requires less <= more
    ensures PaceFor(fl, days, less) <= PaceFor(fl, days, more)
    ensures less > 0 ==> PaceFor(fl, days, less) > 0
  {
    if days > 0 {
      var months := Months(fl, days);
      DivideMore(less as real, more as real, months);
      KeepsOrder(fl, less as real / months, more as real / months);
      if less > 0 {
        DivideMore(1.0, less as real, months);
        assert 1.0 / months > 0.0;
        assert StaysPositive(fl, less as real / months);
      }
    }
  }

  /** One goal seen twice, the second time with at least as much saved and at least as large a balance. */
  predicate BetterOff(i: Inputs, j: Inputs) {
    j == i.(goalSaved := j.goalSaved, balance := j.balance) && i.goalSaved <= j.goalSaved && i.balance <= j.balance
  }

  lemma OwesLess(fl: Rounding, i: Inputs, j: Inputs)
    requires BetterOff(i, j)
    ensures Obligation(fl, j) <= Obligation(fl, i) && SafeToSpend(fl, i) <= SafeToSpend(fl, j)
  {
    WholeGrows(fl, Total(j) - MaxInt(0, j.goalSaved), Total(i) - MaxInt(0, i.goalSaved));
    WholeGrows(fl, i.balance - Obligation(fl, i), j.balance - Obligation(fl, j));
  }

  lemma IncomeGrows(fl: Rounding, i: Inputs, j: Inputs)
    requires BetterOff(i, j) && Obligation(fl, j) > 0
    ensures IncomeSupportRatio(fl, i) <= IncomeSupportRatio(fl, j)
  {
    OwesLess(fl, i, j);
    PaceShrinks(fl, DaysRemaining(fl, i), Obligation(fl, i), Obligation(fl, j));
    if i.monthlyIncome.Some? && i.monthlyIncome.value != 0 {
      ShareGrows(fl, i.monthlyIncome.value, i.monthlyIncome.value, PaceRequired(fl, i), PaceRequired(fl, j));
    }
  }

  /** While something is owed, more savings or a larger balance never lowers the score. */
  lemma ScoreGrowsWhileOwing(fl: Rounding, i: Inputs, j: Inputs)
    requires BetterOff(i, j) && Obligation(fl, j) > 0
    ensures Score(fl, i) <= Score(fl, j)
  {
    OwesLess(fl, i, j);
    var before, after := Obligation(fl, i), Obligation(fl, j);
    if Total(i) > 0 { ShareGrows(fl, MaxInt(0, i.goalSaved), MaxInt(0, j.goalSaved), Total(i), Total(i)); }
    ShareGrows(fl, i.balance, j.balance, before, after);
    IncomeGrows(fl, i, j);
    ShareGrows(fl, SafeToSpend(fl, i), SafeToSpend(fl, j), before, after);
    WeightedGrows(fl, ReadinessRatio(fl, i), CoverageRatio(fl, i), IncomeSupportRatio(fl, i), BufferRatio(fl, i),
                  ReadinessRatio(fl, j), CoverageRatio(fl, j), IncomeSupportRatio(fl, j), BufferRatio(fl, j));
  }

  lemma NothingOwed(fl: Rounding, i: Inputs)
    ensures Obligation(fl, i) == 0 <==> Total(i) <= MaxInt(0, i.goalSaved)
  {
    var rest := Total(i) - MaxInt(0, i.goalSaved);
    WholeIsExact(fl, 0);
    WholeIsExact(fl, 1);
    if rest <= 0 { WholeGrows(fl, rest, 0); } else { WholeGrows(fl, 1, rest); }
  }

  lemma NothingToPace(fl: Rounding, days: nat)
    ensures PaceFor(fl, days, 0) == 0
  {
    WholeIsExact(fl, 0);
    if days > 0 { assert 0.0 / Months(fl, days) == 0.0; }
  }

  /** Once nothing is owed on a real goal the score is exactly 80, whatever it was before. */
  lemma SettledScore(fl: Rounding, i: Inputs)
    requires Total(i) > 0 && Obligation(fl, i) == 0
    ensures Score(fl, i) == 80
  {
    var saved, total := MaxInt(0, i.goalSaved), Total(i);
    NothingOwed(fl, i);
    DivideMore(total as real, saved as real, total as real);
    WholeIsExact(fl, 1);
    KeepsOrder(fl, 1.0, saved as real / total as real);
    NothingToPace(fl, DaysRemaining(fl, i));
    WeightedExactly(fl, 1, 1, 0, 1);
  }

  lemma NoGoalNoChange(fl: Rounding, i: Inputs, j: Inputs)
    requires BetterOff(i, j) && Total(i) == 0
    ensures Score(fl, i) == Score(fl, j)
  {
    NothingOwed(fl, i);
    NothingOwed(fl, j);
  }

  /**
   Exactly when saving more, or having more, lowers the score: when it settles a real goal that scored above 80.
   */
  lemma ScoreFallsExactly(fl: Rounding, i: Inputs, j: Inputs)
    requires BetterOff(i, j)
    ensures Score(fl, j) < Score(fl, i) <==> Total(i) > 0 && Obligation(fl, j) == 0 && Score(fl, i) > 80
  {
    if Obligation(fl, j) > 0 {
      ScoreGrowsWhileOwing(fl, i, j);
    } else if Total(i) > 0 {
      SettledScore(fl, j);
    } else {
      NoGoalNoChange(fl, i, j);
    }
  }

  /** A share of at least `k` steps of the grid earns at least that much, exactly. */
  lemma ReadinessEarns(fl: Rounding, r: real, k: nat)
    requires k <= 1_073_741_824
    ensures var g := k as real / GRID;
            && (r >= g ==> Weighted(fl, r, 1.0, 1.0, 1.0) >= g * 40.0 + 60.0)
            && (r <= g ==> Weighted(fl, r, 1.0, 1.0, 1.0) <= g * 40.0 + 60.0)
  {
    var g := k as real / GRID;
    GridIsExact(fl, 40 * k);
    GridIsExact(fl, 40 * k + 32_212_254_720);
    GridIsExact(fl, 40 * k + 53_687_091_200);
    GridIsExact(fl, 40 * k + 64_424_509_440);
    WholeIsExact(fl, 30);
    WholeIsExact(fl, 20);
    WholeIsExact(fl, 10);
    assert Weighted(fl, g, 1.0, 1.0, 1.0) == g * 40.0 + 60.0;
    if r >= g { WeightedGrows(fl, g, 1.0, 1.0, 1.0, r, 1.0, 1.0, 1.0); }
    if r <= g { WeightedGrows(fl, r, 1.0, 1.0, 1.0, g, 1.0, 1.0, 1.0); }
  }

  lemma LastKoboShares(fl: Rounding)
    ensures fl(99.0 / 100.0) >= 1_063_004_405.0 / GRID && Share(fl, 1, 1) == 1.0 && Share(fl, 999, 1) == 1.0
  {
    WholeIsExact(fl, 1);
    GridIsExact(fl, 1_063_004_405);
    KeepsOrder(fl, 1_063_004_405 as real / GRID, 99.0 / 100.0);
    KeepsOrder(fl, 1.0, 999.0);
  }

  /** The score can fall like that: one kobo short of the goal may score 100, and the goal itself 80. */
  lemma ScoreCanFall(fl: Rounding)
    ensures var i := Inputs(100, 99, 0, 0, 1000, Some(1));
            && BetterOff(i, i.(goalSaved := 100))
            && Score(fl, i) == 100 && Score(fl, i.(goalSaved := 100)) == 80
  {
    var i := Inputs(100, 99, 0, 0, 1000, Some(1));
    NothingOwed(fl, i.(goalSaved := 100));
    SettledScore(fl, i.(goalSaved := 100));
    WholeIsExact(fl, 0);
    WholeIsExact(fl, 1);
    ScoreInRange(fl, i);
    assert Obligation(fl, i) == 1;
    assert DaysRemaining(fl, i) == 0;
    assert PaceRequired(fl, i) == 1;
    WholeGrows(fl, 1, 999);
    ShareGrows(fl, 1, 1000, 1, 1);
    ShareGrows(fl, 1, SafeToSpend(fl, i), 1, 1);
    LastKoboShares(fl);
    ReadinessEarns(fl, ReadinessRatio(fl, i), 1_063_004_405);
  }

  /** The status, unlike the score, never worsens as savings or balance grow. */
  lemma StatusNeverWorsens(fl: Rounding, i: Inputs, j: Inputs)
    requires BetterOff(i, j)
    ensures Severity(StabilityStatus(fl, j)) <= Severity(StabilityStatus(fl, i))
  {
    ScoreFallsExactly(fl, i, j);
    if Score(fl, j) < Score(fl, i) { SettledScore(fl, j); }
  }

  lemma ShareBelow(fl: Rounding, a: int, b: int, k: nat)
    requires b > 0 && 1_073_741_824 * a <= k * b && k <= 1_073_741_824
    ensures Share(fl, a, b) <= k as real / GRID
  {
    var q, g := a as real / b as real, k as real / GRID;
    if q > g { MultiplyLess(b as real, g, q); }
    GridIsExact(fl, k);
    KeepsOrder(fl, q, g);
  }

  lemma StableNeedsReadiness(fl: Rounding, i: Inputs)
    requires Total(i) > 0 && StabilityStatus(fl, i).Stable?
    ensures Weighted(fl, ReadinessRatio(fl, i), 1.0, 1.0, 1.0) >= 69.5
  {
    var r := ReadinessRatio(fl, i);
    WeightedGrows(fl, r, CoverageRatio(fl, i), IncomeSupportRatio(fl, i), BufferRatio(fl, i), r, 1.0, 1.0, 1.0);
  }

  /**
   No balance, income or buffer makes a goal stable before some 23.75 percent of it are saved: together they earn
   60 of the 69.5 points needed.
   */
  lemma StableNeedsSavings(fl: Rounding, i: Inputs)
    requires Total(i) > 0 && StabilityStatus(fl, i).Stable?
    ensures 1_073_741_824 * i.goalSaved > 255_013_683 * Total(i)
  {
    var saved := MaxInt(0, i.goalSaved);
    StableNeedsReadiness(fl, i);
    if 1_073_741_824 * saved <= 255_013_683 * Total(i) {
      ShareBelow(fl, saved, Total(i), 255_013_683);
      ReadinessEarns(fl, ReadinessRatio(fl, i), 255_013_683);
    }
  }

  predicate LeavesAlone(fl: real -> real, x: real) {
    fl(x) == x
  }

  lemma ExactlyEarns(fl: Rounding, r: real)
    requires forall x :: LeavesAlone(fl, x)
    ensures Weighted(fl, r, 1.0, 1.0, 1.0) == r * 40.0 + 60.0
  {
    assert LeavesAlone(fl, r * 40.0) && LeavesAlone(fl, 30.0) && LeavesAlone(fl, 20.0) && LeavesAlone(fl, 10.0);
    assert LeavesAlone(fl, r * 40.0 + 30.0) && LeavesAlone(fl, r * 40.0 + 50.0) && LeavesAlone(fl, r * 40.0 + 60.0);
  }

  lemma ShareAtLeast(a: int, b: int)
    requires b > 0 && a as real / b as real >= 19.0 / 80.0
    ensures 80 * a >= 19 * b
  {
    var q := a as real / b as real;
    MultiplyLess(b as real, 19.0 / 80.0, q);
    assert q * b as real == a as real;
  }

  /** Without rounding the bound is exactly 19/80. */
  lemma StableNeedsExactly(fl: Rounding, i: Inputs)
    requires Total(i) > 0 && StabilityStatus(fl, i).Stable? && forall x :: LeavesAlone(fl, x)
    ensures 80 * i.goalSaved >= 19 * Total(i)
  {
    var saved := MaxInt(0, i.goalSaved);
    StableNeedsReadiness(fl, i);
    ExactlyEarns(fl, ReadinessRatio(fl, i));
    assert LeavesAlone(fl, saved as real / Total(i) as real);
    ShareAtLeast(saved, Total(i));
  }

  /** And while something is owed, only with a positive balance: savings and income together earn at most 60. */
  lemma StableNeedsBalance(fl: Rounding, i: Inputs)
    requires Total(i) > 0 && Obligation(fl, i) > 0 && StabilityStatus(fl, i).Stable?
    ensures i.balance > 0
  {
    if i.balance <= 0 {
      WholeIsExact(fl, 0);
      ShareGrows(fl, i.balance, 0, Obligation(fl, i), Obligation(fl, i));
      WholeGrows(fl, i.balance - Obligation(fl, i), 0);
      WeightedExactly(fl, 1, 0, 1, 0);
      WeightedGrows(fl, ReadinessRatio(fl, i), CoverageRatio(fl, i), IncomeSupportRatio(fl, i), BufferRatio(fl, i),
                    1.0, 0.0, 1.0, 0.0);
    }
  }

  // ----- the folds over a user's transactions -----

  datatype Direction = In | Out

  datatype Tx = Tx(amount: nat, direction: Direction, goal: Option<nat>)

  function Signed(tx: Tx): int {
    if tx.direction.In? then tx.amount else -(tx.amount as int)
  }

  /** `reduce` from the left, over the first `n` transactions. */
  function BalanceOf(fl: Rounding, txs: seq<Tx>, n: nat): int
    requires n <= |txs|
  {
    if n == 0 then 0 else Whole(fl, BalanceOf(fl, txs, n - 1) + Signed(txs[n - 1]))
  }

  function SavedFor(fl: Rounding, txs: seq<Tx>, n: nat, goal: nat): int
    requires n <= |txs|
  {
    if n == 0 then 0
    else if txs[n - 1].goal != Some(goal) then SavedFor(fl, txs, n - 1, goal)
    else Whole(fl, SavedFor(fl, txs, n - 1, goal) + Signed(txs[n - 1]))
  }

  datatype Goal = Goal(id: nat, amountTotal: int, dueDate: int, monthlyIncome: Option<int>)

  function InputsFor(fl: Rounding, goal: Goal, txs: seq<Tx>, today: int): Inputs {
    var income := if goal.monthlyIncome.Some? && goal.monthlyIncome.value != 0 then goal.monthlyIncome else None;
    Inputs(goal.amountTotal, SavedFor(fl, txs, |txs|, goal.id), goal.dueDate, today, BalanceOf(fl, txs, |txs|), income)
  }

  lemma {:induction false} FoldsAreRounded(fl: Rounding, txs: seq<Tx>, n: nat, goal: nat)
    requires n <= |txs|
    ensures Whole(fl, BalanceOf(fl, txs, n)) == BalanceOf(fl, txs, n)
    ensures Whole(fl, SavedFor(fl, txs, n, goal)) == SavedFor(fl, txs, n, goal)
  {
    if n == 0 {
      WholeIsExact(fl, 0);
    } else {
      FoldsAreRounded(fl, txs, n - 1, goal);
      WholeIsRounded(fl, BalanceOf(fl, txs, n - 1) + Signed(txs[n - 1]));
      WholeIsRounded(fl, SavedFor(fl, txs, n - 1, goal) + Signed(txs[n - 1]));
    }
  }

  /** `y` lies on the side of `x` to which this transaction moves a sum. */
  predicate Toward(tx: Tx, x: int, y: int) {
    if tx.direction.In? then x <= y else y <= x
  }

  lemma Moves(fl: Rounding, sum: int, tx: Tx)
    requires Whole(fl, sum) == sum
    ensures Toward(tx, sum, Whole(fl, sum + Signed(tx)))
  {
    if tx.direction.In? { WholeGrows(fl, sum, sum + Signed(tx)); } else { WholeGrows(fl, sum + Signed(tx), sum); }
  }

  lemma SameOrder(fl: Rounding, tx: Tx, x: int, y: int, n: int)
    requires Toward(tx, x, y)
    ensures Toward(tx, Whole(fl, x + n), Whole(fl, y + n))
  {
    if tx.direction.In? { WholeGrows(fl, x + n, y + n); } else { WholeGrows(fl, y + n, x + n); }
  }

  lemma {:induction false} FoldsAgree(fl: Rounding, txs: seq<Tx>, others: seq<Tx>, n: nat, goal: nat)
    requires n <= |txs| && n <= |others| && forall k | 0 <= k < n :: txs[k] == others[k]
    ensures BalanceOf(fl, txs, n) == BalanceOf(fl, others, n)
    ensures SavedFor(fl, txs, n, goal) == SavedFor(fl, others, n, goal)
  {
    if n == 0 {
    } else {
      FoldsAgree(fl, txs, others, n - 1, goal);
    }
  }

  predicate Inserts(txs: seq<Tx>, more: seq<Tx>, at: nat) {
    && at <= |txs| && |more| == |txs| + 1
    && (forall k | 0 <= k < at :: more[k] == txs[k])
    && (forall k | at < k < |more| :: more[k] == txs[k - 1])
  }

  /** Inserting a transaction moves every later partial sum its way, or not at all. */
  lemma {:induction false} BalanceMoves(fl: Rounding, txs: seq<Tx>, more: seq<Tx>, at: nat, n: nat)
    requires Inserts(txs, more, at) && at <= n <= |txs|
    ensures Toward(more[at], BalanceOf(fl, txs, n), BalanceOf(fl, more, n + 1))
    decreases n
  {
    if n == at {
      FoldsAgree(fl, txs, more, n, 0);
      FoldsAreRounded(fl, txs, n, 0);
      Moves(fl, BalanceOf(fl, txs, n), more[at]);
    } else {
      BalanceMoves(fl, txs, more, at, n - 1);
      assert more[n] == txs[n - 1];
      SameOrder(fl, more[at], BalanceOf(fl, txs, n - 1), BalanceOf(fl, more, n), Signed(more[n]));
    }
  }

  lemma {:induction false} SavingsMove(fl: Rounding, txs: seq<Tx>, more: seq<Tx>, at: nat, n: nat, goal: nat)
    requires Inserts(txs, more, at) && at <= n <= |txs|
    ensures Toward(more[at], SavedFor(fl, txs, n, goal), SavedFor(fl, more, n + 1, goal))
    decreases n
  {
    if n == at {
      FoldsAgree(fl, txs, more, n, goal);
      FoldsAreRounded(fl, txs, n, goal);
      Moves(fl, SavedFor(fl, txs, n, goal), more[at]);
    } else {
      SavingsMove(fl, txs, more, at, n - 1, goal);
      assert more[n] == txs[n - 1];
      SameOrder(fl, more[at], SavedFor(fl, txs, n - 1, goal), SavedFor(fl, more, n, goal), Signed(more[n]));
    }
  }

  lemma InsertedMoves(fl: Rounding, a: seq<Tx>, tx: Tx, b: seq<Tx>, goal: Goal, today: int)
    ensures var (i, j) := (InputsFor(fl, goal, a + b, today), InputsFor(fl, goal, a + [tx] + b, today));
            if tx.direction.In? then BetterOff(i, j) else BetterOff(j, i)
  {
    BalanceMoves(fl, a + b, a + [tx] + b, |a|, |a + b|);
    SavingsMove(fl, a + b, a + [tx] + b, |a|, |a + b|, goal.id);
  }

  /** One more inflow, of any goal or none, wherever it sorts among the others, never worsens the status. */
  lemma InflowNeverWorsens(fl: Rounding, goal: Goal, a: seq<Tx>, tx: Tx, b: seq<Tx>, today: int)
    requires tx.direction.In?
    ensures Severity(StabilityStatus(fl, InputsFor(fl, goal, a + [tx] + b, today)))
            <= Severity(StabilityStatus(fl, InputsFor(fl, goal, a + b, today)))
  {
    InsertedMoves(fl, a, tx, b, goal, today);
    StatusNeverWorsens(fl, InputsFor(fl, goal, a + b, today), InputsFor(fl, goal, a + [tx] + b, today));
  }

  /** One more outflow never improves it. */
  lemma OutflowNeverImproves(fl: Rounding, goal: Goal, a: seq<Tx>, tx: Tx, b: seq<Tx>, today: int)
    requires tx.direction.Out?
    ensures Severity(StabilityStatus(fl, InputsFor(fl, goal, a + [tx] + b, today)))
            >= Severity(StabilityStatus(fl, InputsFor(fl, goal, a + b, today)))
  {
    InsertedMoves(fl, a, tx, b, goal, today);
    StatusNeverWorsens(fl, InputsFor(fl, goal, a + [tx] + b, today), InputsFor(fl, goal, a + b, today));
  }
}
